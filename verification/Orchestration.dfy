/** What the orchestrator guarantees over whole runs: any number of processes, any completion
    events in any order and any number of times, and crashes at any point.
  */
module Orchestration {
  import opened Options
  import opened Workflows
  import opened Interpreter
  import opened RowInvariant
  import opened Protocol

  /** Nobody is handling the workflow. */
  predicate Unattended(s: System, wid: Id) {
    wid in s.db.workflows && forall p :: p in s.pcs && !s.pcs[p].Idle? ==> s.pcs[p].wid != wid
  }

  lemma RowOf(rules: Rules, run: seq<System>, actions: seq<Action>, i: nat, wid: Id)
    requires IsRun(rules, run, actions) && i < |run| && wid in run[i].db.workflows
    ensures wid in run[i].answers
    ensures RowInv(rules, wid, run[i].db.workflows[wid], run[i].answers[wid], Staged(run[i].db.outbox, wid))
  {
    RunKeeps(rules, run, actions, i);
    assert RowInvOf(rules)(wid, run[i].db.workflows[wid], run[i].answers[wid], Staged(run[i].db.outbox, wid));
  }

  /** In every reachable state, crashes included: settled steps, then at most one dispatched
      step, then only pending ones. */
  lemma StepsInOrder(rules: Rules, run: seq<System>, actions: seq<Action>, i: nat, wid: Id)
    requires IsRun(rules, run, actions) && i < |run| && wid in run[i].db.workflows
    ensures exists cut :: SettledUpto(run[i].db.workflows[wid].steps, cut)
  {
    RowOf(rules, run, actions, i, wid);
    var steps := run[i].db.workflows[wid].steps;
    CutAt(steps);
  }

  /** Settled before `cut`, one open step at it (pending or dispatched), pending behind it. */
  predicate SettledUpto(steps: seq<Step>, cut: nat) {
    && cut <= |steps|
    && (forall k :: 0 <= k < cut ==> steps[k].Settled())
    && (cut < |steps| ==> steps[cut].status.Pending? || steps[cut].status.Dispatched?)
    && (forall k :: cut < k < |steps| ==> steps[k].status.Pending?)
  }

  lemma CutAt(steps: seq<Step>)
    requires Shape(steps)
    ensures SettledUpto(steps, FirstOpen(steps))
  {
  }

  function FirstOpen(steps: seq<Step>): (i: nat)
    ensures i <= |steps|
    ensures forall k :: 0 <= k < i ==> steps[k].Settled()
    ensures i < |steps| ==> !steps[i].Settled()
  {
    if steps == [] || !steps[0].Settled() then 0 else 1 + FirstOpen(steps[1..])
  }

  /** Crashes included: a workflow that has finished or waits for a job is exactly where the
      sequential interpreter gets with the completions that were accepted: same steps, same
      results, same status, same events in the same order. */
  lemma RefinesInterpreter(rules: Rules, run: seq<System>, actions: seq<Action>, i: nat, wid: Id)
    requires IsRun(rules, run, actions) && i < |run|
    requires wid in run[i].db.workflows && Steady(run[i].db.workflows[wid])
    ensures wid in run[i].answers
    ensures var w := run[i].db.workflows[wid];
            Progress(w, Staged(run[i].db.outbox, wid))
              == Run(rules, Engine, wid, w.inputs, Plan(w.steps), run[i].answers[wid])
  {
    RowOf(rules, run, actions, i, wid);
    var staged := Staged(run[i].db.outbox, wid);
    assert staged + [] == staged;
  }

  /** No two processes are ever busy with one workflow; the workflow a process is busy with has
      neither finished nor waits for a job; and what was read under the lock is never out of date. */
  lemma OneAtATime(rules: Rules, run: seq<System>, actions: seq<Action>, i: nat, p: Pid)
    requires IsRun(rules, run, actions) && i < |run| && p in run[i].pcs && !run[i].pcs[p].Idle?
    ensures var s, wid := run[i], run[i].pcs[p].wid;
            && wid in s.db.workflows && !Steady(s.db.workflows[wid]) && wid !in s.lost
            && (forall q :: q in s.pcs && q != p && !s.pcs[q].Idle? ==> s.pcs[q].wid != wid)
            && (s.pcs[p].Locked? ==> s.pcs[p].read == s.db.workflows[wid])
  {
    RunKeeps(rules, run, actions, i);
    Alone(run[i], p);
  }

  /** The action at `k` is the crash of a process that was busy with the workflow. */
  predicate CrashedOn(run: seq<System>, actions: seq<Action>, k: nat, wid: Id) {
    && k < |actions| && k < |run| && actions[k].Crash? && actions[k].p in run[k].pcs
    && !run[k].pcs[actions[k].p].Idle? && run[k].pcs[actions[k].p].wid == wid
  }

  lemma {:induction false} LostMeansCrash(rules: Rules, run: seq<System>, actions: seq<Action>, i: nat, wid: Id)
    requires IsRun(rules, run, actions) && i < |run|
    ensures wid in run[i].lost <==> exists k :: 0 <= k < i && CrashedOn(run, actions, k, wid)
  {
    if i > 0 {
      LostMeansCrash(rules, run, actions, i - 1, wid);
      LostByOne(rules, run[i - 1], actions[i - 1], run[i], wid);
      assert CrashedOn(run, actions, i - 1, wid) ==> wid in run[i].lost;
    }
  }

  lemma LostByOne(rules: Rules, s: System, a: Action, s': System, wid: Id)
    requires Next(rules, s, a, s')
    ensures wid in s'.lost <==> wid in s.lost || (a.Crash? && !s.pcs[a.p].Idle? && s.pcs[a.p].wid == wid)
  {
  }

  /** A workflow nobody is handling has finished or waits for a job if and only if no process ever
      crashed while it was busy with it. */
  lemma StalledIffCrashed(rules: Rules, run: seq<System>, actions: seq<Action>, i: nat, wid: Id)
    requires IsRun(rules, run, actions) && i < |run| && Unattended(run[i], wid)
    ensures Steady(run[i].db.workflows[wid]) <==> !exists k :: 0 <= k < i && CrashedOn(run, actions, k, wid)
  {
    RunKeeps(rules, run, actions, i);
    LostMeansCrash(rules, run, actions, i, wid);
    assert Looked(run[i], wid) && LostFits(run[i], wid);
    assert forall p :: !OnDuty(run[i], p, wid);
  }

  /** The price of crashing between recording a completion and advancing: an unattended workflow
      that neither has finished nor waits for a job is never touched again, whatever arrives. */
  lemma {:induction false} StallsForGood(rules: Rules, run: seq<System>, actions: seq<Action>, i: nat, j: nat, wid: Id)
    requires IsRun(rules, run, actions) && i <= j < |run|
    requires Unattended(run[i], wid) && !Steady(run[i].db.workflows[wid])
    ensures Unattended(run[j], wid) && run[j].db.workflows[wid] == run[i].db.workflows[wid]
    ensures Staged(run[j].db.outbox, wid) == Staged(run[i].db.outbox, wid)
    decreases j
  {
    if i < j {
      StallsForGood(rules, run, actions, i, j - 1, wid);
      assert Next(rules, run[j - 1], actions[j - 1], run[j]);
      StallsForOneStep(rules, run[j - 1], actions[j - 1], run[j], wid);
    }
  }

  lemma StallsForOneStep(rules: Rules, s: System, a: Action, s': System, wid: Id)
    requires Next(rules, s, a, s') && Unattended(s, wid) && !Steady(s.db.workflows[wid])
    ensures Unattended(s', wid) && s'.db.workflows[wid] == s.db.workflows[wid]
    ensures Staged(s'.db.outbox, wid) == Staged(s.db.outbox, wid)
  {
    match a
    case Create(p, v, inputs, plan) =>
    case SetRunning(p) =>
    case Accept(p, jobId, answer) =>
      if s' != s {
        var v, i :| Matches(s.db, v, i, jobId) && v in s.answers && s' == Accepted(s, p, v, i, answer);
        assert s.db.workflows[v].Waiting();
      }
    case Lock(p) =>
    case Commit(p) =>
      var v, read := s.pcs[p].wid, s.pcs[p].read;
      var r := Advance(rules, v, read, s.db.workflows[v]);
      AdvanceStagesItsOwn(rules, v, read, s.db.workflows[v]);
      CommitLog(s.db.outbox, r.events, v);
    case Crash(p) =>
  }

  /** Whenever a busy process crashes, its workflow stays as it is for the rest of the run. */
  lemma CrashFreezes(rules: Rules, run: seq<System>, actions: seq<Action>, k: nat, j: nat, wid: Id)
    requires IsRun(rules, run, actions) && CrashedOn(run, actions, k, wid) && k < j < |run|
    ensures wid in run[k].db.workflows && Unattended(run[j], wid)
    ensures run[j].db.workflows[wid] == run[k].db.workflows[wid] && !Steady(run[j].db.workflows[wid])
    ensures Staged(run[j].db.outbox, wid) == Staged(run[k].db.outbox, wid)
  {
    OneAtATime(rules, run, actions, k, actions[k].p);
    assert Next(rules, run[k], actions[k], run[k + 1]);
    StallsForGood(rules, run, actions, k + 1, j, wid);
  }

  /** The workflow stands like this, nobody handles it, and it neither has finished nor waits. */
  predicate StalledAs(s: System, wid: Id, w: Workflow) {
    Unattended(s, wid) && s.db.workflows[wid] == w && !Steady(w)
  }

  /** And it does happen, with every plan whose first step can be dispatched: one process, and a
      crash right after the completion of that step was recorded. */
  lemma {:induction false} CrashStalls(rules: Rules, wid: Id, inputs: Inputs, plan: seq<Step>, request: Request,
                                       a: Answer)
    returns (run: seq<System>, actions: seq<Action>)
    requires plan != [] && Plan(plan) == plan && DistinctJobs(plan)
    requires rules.dispatch(inputs, plan, 0) == Send(request)
    ensures IsRun(rules, run, actions) && |run| == 7
    ensures StalledAs(run[6], wid, Workflow(inputs, Running, None, plan[0 := Record(plan[0], a)]))
  {
    var w := Workflow(inputs, Running, None, plan);
    NotWaiting(plan);
    var s0, s1, s2, s3 := FirstSteps(rules, wid, w);
    var s4, s5, s6 := LastSteps(rules, wid, w, s3, request, a);
    run, actions := SixSteps(rules, s0, Create(0, wid, inputs, plan), s1, SetRunning(0), s2, Lock(0), s3,
                             Commit(0), s4, Accept(0, plan[0].jobId, a), s5, Crash(0), s6);
  }

  /** A run goes on with any action that is possible. */
  lemma RunOn(rules: Rules, run: seq<System>, actions: seq<Action>, a: Action, s: System)
    requires IsRun(rules, run, actions) && Next(rules, run[|actions|], a, s)
    ensures IsRun(rules, run + [s], actions + [a])
  {
    var run', actions' := run + [s], actions + [a];
    forall i | 0 <= i < |actions'| ensures Next(rules, run'[i], actions'[i], run'[i + 1]) {
      if i < |actions| {
        assert Next(rules, run[i], actions[i], run[i + 1]);
      }
    }
  }

  lemma SixSteps(rules: Rules, s0: System, a0: Action, s1: System, a1: Action, s2: System, a2: Action, s3: System,
                 a3: Action, s4: System, a4: Action, s5: System, a5: Action, s6: System)
    returns (run: seq<System>, actions: seq<Action>)
    requires Init(s0) && Next(rules, s0, a0, s1) && Next(rules, s1, a1, s2) && Next(rules, s2, a2, s3)
    requires Next(rules, s3, a3, s4) && Next(rules, s4, a4, s5) && Next(rules, s5, a5, s6)
    ensures IsRun(rules, run, actions) && |run| == 7 && run[6] == s6
  {
    run, actions := FourSteps(rules, s0, a0, s1, a1, s2, a2, s3, a3, s4);
    RunOn(rules, run, actions, a4, s5);
    run, actions := run + [s5], actions + [a4];
    RunOn(rules, run, actions, a5, s6);
    run, actions := run + [s6], actions + [a5];
  }

  lemma FourSteps(rules: Rules, s0: System, a0: Action, s1: System, a1: Action, s2: System, a2: Action, s3: System,
                  a3: Action, s4: System)
    returns (run: seq<System>, actions: seq<Action>)
    requires Init(s0) && Next(rules, s0, a0, s1) && Next(rules, s1, a1, s2)
    requires Next(rules, s2, a2, s3) && Next(rules, s3, a3, s4)
    ensures IsRun(rules, run, actions) && |run| == 5 && run[4] == s4 && actions[0] == a0
  {
    run, actions := [s0, s1, s2, s3, s4], [a0, a1, a2, a3];
  }

  /** A workflow is created, set running and locked by the only process there is. */
  lemma FirstSteps(rules: Rules, wid: Id, w: Workflow) returns (s0: System, s1: System, s2: System, s3: System)
    requires w.status.Running? && w.error == None && Plan(w.steps) == w.steps && DistinctJobs(w.steps)
    ensures Init(s0)
    ensures Next(rules, s0, Create(0, wid, w.inputs, w.steps), s1)
    ensures Next(rules, s1, SetRunning(0), s2) && Next(rules, s2, Lock(0), s3)
    ensures s3 == System(Db(map[wid := w], []), map[0 := Locked(wid, w)], map[wid := map[]], {})
  {
    s0 := System(Db(map[], []), map[0 := Idle], map[], {});
    s1 := System(Db(map[wid := w.(status := Queued)], []), map[0 := Created(wid)], map[wid := map[]], {});
    s2 := System(Db(map[wid := w], []), map[0 := Owes(wid)], map[wid := map[]], {});
    s3 := System(Db(map[wid := w], []), map[0 := Locked(wid, w)], map[wid := map[]], {});
    assert Creates(s0, 0, wid, w.inputs, w.steps, s1);
    assert SetsRunning(s1, 0, s2);
    assert Locks(s2, 0, s3);
  }

  /** Its first step is dispatched and answered, and the process crashes. */
  lemma LastSteps(rules: Rules, wid: Id, w: Workflow, s3: System, request: Request, a: Answer)
    returns (s4: System, s5: System, s6: System)
    requires w.status.Running? && w.steps != [] && forall k :: 0 <= k < |w.steps| ==> w.steps[k].status.Pending?
    requires rules.dispatch(w.inputs, w.steps, 0) == Send(request)
    requires s3 == System(Db(map[wid := w], []), map[0 := Locked(wid, w)], map[wid := map[]], {})
    ensures Next(rules, s3, Commit(0), s4) && Next(rules, s4, Accept(0, w.steps[0].jobId, a), s5)
    ensures Next(rules, s5, Crash(0), s6)
    ensures wid in s6.db.workflows
    ensures s6.db.workflows[wid] == w.(error := None, steps := w.steps[0 := Record(w.steps[0], a)])
    ensures s6.pcs == map[0 := Idle]
  {
    FirstMove(rules, wid, w, request);
    s4 := Committed(s3, 0, wid, Dispatch(wid, w, 0, request));
    assert Commits(rules, s3, 0, s4);
    s5 := Accepted(s4, 0, wid, 0, a);
    AnsweredAtOnce(s4, wid, w.steps[0].jobId, a);
    s6 := s5.(pcs := s5.pcs[0 := Idle], lost := {wid});
    assert Crashes(s5, 0, s6);
    assert s6.db.workflows[wid].steps == w.steps[0 := Record(w.steps[0], a)];
  }

  lemma AnsweredAtOnce(s: System, wid: Id, jobId: Id, a: Answer)
    requires 0 in s.pcs && s.pcs[0].Idle? && wid in s.answers && Matches(s.db, wid, 0, jobId)
    ensures Protocol.Accepts(s, 0, jobId, a, Accepted(s, 0, wid, 0, a))
  {
  }

  lemma FirstMove(rules: Rules, wid: Id, w: Workflow, request: Request)
    requires w.status.Running? && w.steps != [] && forall k :: 0 <= k < |w.steps| ==> w.steps[k].status.Pending?
    requires rules.dispatch(w.inputs, w.steps, 0) == Send(request)
    ensures Advance(rules, wid, w, w) == Dispatch(wid, w, 0, request)
  {
    assert NextPending(w.steps) == 0;
  }

  /** Crash or not, nothing is ever done that the interpreter would not do: the staged events are
      the first ones it stages, and every settled step is as it leaves it. */
  lemma NeverStrays(rules: Rules, run: seq<System>, actions: seq<Action>, i: nat, wid: Id)
    requires IsRun(rules, run, actions) && i < |run| && wid in run[i].db.workflows
    ensures wid in run[i].answers
    ensures var w := run[i].db.workflows[wid];
            var whole := Run(rules, Engine, wid, w.inputs, Plan(w.steps), run[i].answers[wid]);
            && Staged(run[i].db.outbox, wid) <= whole.events
            && |whole.workflow.steps| == |w.steps|
            && (forall k :: 0 <= k < |w.steps| && w.steps[k].Settled() ==> whole.workflow.steps[k] == w.steps[k])
  {
    RowOf(rules, run, actions, i, wid);
    RowNeverStrays(rules, wid, run[i].db.workflows[wid], run[i].answers[wid], Staged(run[i].db.outbox, wid));
  }

  lemma RowNeverStrays(rules: Rules, wid: Id, w: Workflow, answers: map<Id, Answer>, staged: seq<Event>)
    requires Shape(w.steps) && OnTheWay(rules, wid, w, answers, staged)
    ensures var whole := Run(rules, Engine, wid, w.inputs, Plan(w.steps), answers);
            && staged <= whole.events
            && |whole.workflow.steps| == |w.steps|
            && (forall k :: 0 <= k < |w.steps| && w.steps[k].Settled() ==> whole.workflow.steps[k] == w.steps[k])
  {
    if !Steady(w) && !w.HasFatal() {
      var next := NextPending(w.steps);
      PendingTail(w, next);
      ResumeKeeps(rules, Engine, wid, w.(status := Running), next, false, answers);
    }
  }

  // ---- requests and notices

  function Copies(outbox: seq<Event>, jobId: Id): nat {
    if outbox == [] then 0
    else (if outbox[0].Requested? && outbox[0].jobId == jobId then 1 else 0) + Copies(outbox[1..], jobId)
  }

  /** If only one workflow's events name a job, its copies can be counted in that workflow's log. */
  lemma {:induction false} CopiesStaged(outbox: seq<Event>, wid: Id, jobId: Id)
    requires forall k :: 0 <= k < |outbox| && outbox[k].Requested? && outbox[k].jobId == jobId ==>
               outbox[k].workflowId == wid
    ensures Copies(outbox, jobId) == multiset(Jobs(Staged(outbox, wid)))[jobId]
  {
    if outbox != [] {
      CopiesStaged(outbox[1..], wid, jobId);
      var head := if outbox[0].workflowId == wid then [outbox[0]] else [];
      JobsConcat(head, Staged(outbox[1..], wid));
    }
  }

  lemma {:induction false} StagedHas(outbox: seq<Event>, k: nat)
    requires k < |outbox| && outbox[k].Requested?
    ensures outbox[k].jobId in Jobs(Staged(outbox, outbox[k].workflowId))
  {
    var wid := outbox[k].workflowId;
    var head := if outbox[0].workflowId == wid then [outbox[0]] else [];
    JobsConcat(head, Staged(outbox[1..], wid));
    if k == 0 {
      assert Jobs(head) == [outbox[0].jobId];
    } else {
      StagedHas(outbox[1..], k - 1);
    }
  }

  lemma AskedCount(steps: seq<Step>, j: nat)
    requires DistinctJobs(steps) && j < |steps|
    ensures multiset(Asked(steps))[steps[j].jobId] == if Requestable(steps[j]) then 1 else 0
  {
    TimesAre(steps, steps[j].jobId);
    TimesOf(steps, j, |steps|);
    assert steps[..|steps|] == steps;
  }

  function TimesAsked(steps: seq<Step>, jobId: Id): nat {
    if steps == [] then 0
    else
      var last := steps[|steps| - 1];
      TimesAsked(steps[..|steps| - 1], jobId) + if Requestable(last) && last.jobId == jobId then 1 else 0
  }

  lemma {:induction false} TimesAre(steps: seq<Step>, jobId: Id)
    ensures multiset(Asked(steps))[jobId] == TimesAsked(steps, jobId)
  {
    if steps != [] {
      TimesAre(steps[..|steps| - 1], jobId);
      AskedMore(steps, jobId);
    }
  }

  lemma {:induction false} TimesOf(steps: seq<Step>, j: nat, n: nat)
    requires DistinctJobs(steps) && j < |steps| && n <= |steps|
    ensures TimesAsked(steps[..n], steps[j].jobId) == if j < n && Requestable(steps[j]) then 1 else 0
  {
    if n > 0 {
      TimesOf(steps, j, n - 1);
      assert steps[..n][..n - 1] == steps[..n - 1] && steps[..n][n - 1] == steps[n - 1];
      assert j != n - 1 ==> steps[n - 1].jobId != steps[j].jobId;
    }
  }

  lemma AskedMore(steps: seq<Step>, jobId: Id)
    requires steps != []
    ensures var last := steps[|steps| - 1];
            multiset(Asked(steps))[jobId] == multiset(Asked(steps[..|steps| - 1]))[jobId]
              + if Requestable(last) && last.jobId == jobId then 1 else 0
  {
    var last := steps[|steps| - 1];
    var tail := if Requestable(last) then [last.jobId] else [];
    assert Asked(steps) == Asked(steps[..|steps| - 1]) + tail;
    assert multiset(Asked(steps)) == multiset(Asked(steps[..|steps| - 1])) + multiset(tail);
  }

  lemma {:induction false} AskedOthers(steps: seq<Step>, jobId: Id)
    requires forall k :: 0 <= k < |steps| ==> steps[k].jobId != jobId
    ensures jobId !in Asked(steps)
  {
    if steps != [] {
      AskedOthers(steps[..|steps| - 1], jobId);
    }
  }

  /** Over the whole outbox and every workflow, a step has exactly one request if it is
      dispatched, completed or failed, and none if it is pending or skipped. */
  lemma RequestedOnce(rules: Rules, run: seq<System>, actions: seq<Action>, i: nat, wid: Id, j: nat)
    requires IsRun(rules, run, actions) && i < |run| && wid in run[i].db.workflows
    requires j < |run[i].db.workflows[wid].steps|
    ensures var step := run[i].db.workflows[wid].steps[j];
            Copies(run[i].db.outbox, step.jobId) == if Requestable(step) then 1 else 0
  {
    RunKeeps(rules, run, actions, i);
    RowOf(rules, run, actions, i, wid);
    var db := run[i].db;
    var jobId := db.workflows[wid].steps[j].jobId;
    forall k | 0 <= k < |db.outbox| && db.outbox[k].Requested? && db.outbox[k].jobId == jobId
      ensures db.outbox[k].workflowId == wid
    {
      var v := db.outbox[k].workflowId;
      RowOf(rules, run, actions, i, v);
      StagedHas(db.outbox, k);
      if v != wid {
        assert DisjointJobs(db.workflows[v].steps, db.workflows[wid].steps);
        AskedOthers(db.workflows[v].steps, jobId);
      }
    }
    CopiesStaged(db.outbox, wid, jobId);
    AskedCount(db.workflows[wid].steps, j);
  }

  /** A workflow announces its end at most once, and never before it has ended. */
  lemma AnnouncedAtMostOnce(rules: Rules, run: seq<System>, actions: seq<Action>, i: nat, wid: Id)
    requires IsRun(rules, run, actions) && i < |run| && wid in run[i].db.workflows
    ensures Notices(Staged(run[i].db.outbox, wid)) <= if run[i].db.workflows[wid].Terminal() then 1 else 0
  {
    RowOf(rules, run, actions, i, wid);
  }

  /** Success means every step is settled and only competitor crawls failed. */
  lemma SuccessMeans(rules: Rules, run: seq<System>, actions: seq<Action>, i: nat, wid: Id)
    requires IsRun(rules, run, actions) && i < |run| && wid in run[i].db.workflows
    requires run[i].db.workflows[wid].status.Succeeded?
    ensures forall k :: 0 <= k < |run[i].db.workflows[wid].steps| ==>
              var s := run[i].db.workflows[wid].steps[k];
              s.Settled() && (s.status.Failed? ==> s.kind.CompetitorCrawl?)
  {
    RowOf(rules, run, actions, i, wid);
  }

  // ---- what a single action can change

  function Cost(s: Step): nat {
    match s.status
    case Pending => 2
    case Dispatched => 1
    case _ => 0
  }

  function Weight(steps: seq<Step>): nat {
    if steps == [] then 0 else Cost(steps[0]) + Weight(steps[1..])
  }

  lemma {:induction false} WeightUpdate(steps: seq<Step>, i: nat, s: Step)
    requires i < |steps|
    ensures Weight(steps[i := s]) + Cost(steps[i]) == Weight(steps) + Cost(s)
  {
    if i > 0 {
      assert steps[i := s][1..] == steps[1..][i - 1 := s];
      WeightUpdate(steps[1..], i - 1, s);
    } else {
      assert steps[i := s][1..] == steps[1..];
    }
  }

  lemma AdvanceWeighs(rules: Rules, wid: Id, w: Workflow)
    ensures var w' := Advance(rules, wid, w, w).workflow;
            w'.steps == w.steps || Weight(w'.steps) < Weight(w.steps)
  {
    var i := NextPending(w.steps);
    if i < |w.steps| {
      WeightUpdate(w.steps, i, w.steps[i].(status := Dispatched));
      match rules.dispatch(w.inputs, w.steps, i)
      case Raised(_) =>
      case Send(_) =>
      case NoWork(reason) =>
        WeightUpdate(w.steps, i, w.steps[i].(status := Skipped, error := Some(reason)));
        PastSkipWeighs(rules, wid, MarkSkipped(w, i, reason));
    }
  }

  lemma PastSkipWeighs(rules: Rules, wid: Id, w: Workflow)
    ensures Weight(AdvancePastSkip(rules, wid, w).workflow.steps) <= Weight(w.steps)
  {
    var i := NextPending(w.steps);
    if i < |w.steps| {
      WeightUpdate(w.steps, i, w.steps[i].(status := Dispatched));
    }
  }

  // ---- how many completions it takes

  function Open(steps: seq<Step>): nat {
    if steps == [] then 0 else (if steps[0].Settled() then 0 else 1) + Open(steps[1..])
  }

  lemma {:induction false} OpenUpdate(steps: seq<Step>, i: nat, s: Step)
    requires i < |steps|
    ensures Open(steps[i := s]) + (if steps[i].Settled() then 0 else 1)
         == Open(steps) + (if s.Settled() then 0 else 1)
  {
    if i > 0 {
      assert steps[i := s][1..] == steps[1..][i - 1 := s];
      OpenUpdate(steps[1..], i - 1, s);
    } else {
      assert steps[i := s][1..] == steps[1..];
    }
  }

  lemma {:induction false} OpenAtMost(steps: seq<Step>)
    ensures Open(steps) <= |steps|
  {
    if steps != [] {
      OpenAtMost(steps[1..]);
    }
  }

  lemma AdvanceOpens(rules: Rules, wid: Id, read: Workflow, w: Workflow)
    requires |read.steps| == |w.steps|
    ensures var w' := Advance(rules, wid, read, w).workflow;
            |w'.steps| == |w.steps| && Open(w'.steps) <= Open(w.steps)
  {
    var i := NextPending(read.steps);
    if i < |w.steps| {
      OpenUpdate(w.steps, i, w.steps[i].(status := Dispatched));
      match rules.dispatch(read.inputs, read.steps, i)
      case Raised(_) =>
      case Send(_) =>
      case NoWork(reason) =>
        OpenUpdate(w.steps, i, w.steps[i].(status := Skipped, error := Some(reason)));
        PastSkipOpens(rules, wid, MarkSkipped(w, i, reason));
    }
  }

  lemma PastSkipOpens(rules: Rules, wid: Id, w: Workflow)
    ensures var w' := AdvancePastSkip(rules, wid, w).workflow;
            |w'.steps| == |w.steps| && Open(w'.steps) <= Open(w.steps)
  {
    var i := NextPending(w.steps);
    if i < |w.steps| {
      OpenUpdate(w.steps, i, w.steps[i].(status := Dispatched));
    }
  }

  // ---- what a single action can do to a workflow

  /** The plan stays; a finished workflow is left alone, log included; otherwise the steps stay as
      they are or come strictly closer to the end; every accepted completion closes a step. */
  predicate Closer(s: System, s': System, wid: Id) {
    && wid in s.db.workflows && wid in s'.db.workflows && wid in s.answers && wid in s'.answers
    && var w, w' := s.db.workflows[wid], s'.db.workflows[wid];
    && w'.inputs == w.inputs && Plan(w'.steps) == Plan(w.steps)
    && (w.Terminal() ==> w' == w && Staged(s'.db.outbox, wid) == Staged(s.db.outbox, wid))
    && (w'.steps == w.steps || Weight(w'.steps) < Weight(w.steps))
    && |s'.answers[wid]| + Open(w'.steps) <= |s.answers[wid]| + Open(w.steps)
  }

  lemma ActionBringsCloser(rules: Rules, s: System, a: Action, s': System, wid: Id)
    requires Next(rules, s, a, s') && PcFits(s, a.p)
    requires wid in s.db.workflows && wid in s.answers && StatusAgrees(s.db.workflows[wid])
    ensures Closer(s, s', wid)
  {
    match a
    case Create(p, v, inputs, plan) =>
    case SetRunning(p) =>
    case Accept(p, jobId, answer) =>
      if s' != s {
        var v, i :| Matches(s.db, v, i, jobId) && v in s.answers && s' == Accepted(s, p, v, i, answer);
        if v == wid {
          AcceptBringsCloser(s, p, wid, i, answer);
        }
      }
    case Lock(p) =>
    case Commit(p) => CommitBringsCloser(rules, s, p, s', wid);
    case Crash(p) =>
  }

  lemma AcceptBringsCloser(s: System, p: Pid, wid: Id, i: nat, a: Answer)
    requires wid in s.db.workflows && wid in s.answers && StatusAgrees(s.db.workflows[wid])
    requires i < |s.db.workflows[wid].steps| && s.db.workflows[wid].steps[i].status.Dispatched?
    ensures Closer(s, Accepted(s, p, wid, i, a), wid)
  {
    var w := s.db.workflows[wid];
    assert w.Waiting();
    WeightUpdate(w.steps, i, Record(w.steps[i], a));
    OpenUpdate(w.steps, i, Record(w.steps[i], a));
    PlanOf(w.steps, i, Record(w.steps[i], a));
  }

  lemma CommitBringsCloser(rules: Rules, s: System, p: Pid, s': System, wid: Id)
    requires p in s.pcs && PcFits(s, p) && Commits(rules, s, p, s')
    requires wid in s.db.workflows && wid in s.answers
    ensures Closer(s, s', wid)
  {
    var v, read := s.pcs[p].wid, s.pcs[p].read;
    var now := s.db.workflows[v];
    var r := Advance(rules, v, read, now);
    AdvanceStagesItsOwn(rules, v, read, now);
    CommitLog(s.db.outbox, r.events, v);
    if v == wid {
      AdvanceKeepsPlan(rules, v, read, now);
      AdvanceOpens(rules, v, read, now);
      AdvanceWeighs(rules, v, now);
      assert now.Terminal() ==> r == Progress(now, []);
      assert Staged(s.db.outbox, wid) + [] == Staged(s.db.outbox, wid);
    }
  }

  lemma AdvanceKeepsPlan(rules: Rules, wid: Id, read: Workflow, w: Workflow)
    requires |read.steps| == |w.steps|
    ensures var w' := Advance(rules, wid, read, w).workflow;
            w'.inputs == w.inputs && Plan(w'.steps) == Plan(w.steps)
  {
    var i := NextPending(read.steps);
    if i < |w.steps| {
      match rules.dispatch(read.inputs, read.steps, i)
      case Raised(_) =>
      case Send(_) => MarksKeepPlan(w, i, "");
      case NoWork(reason) =>
        MarksKeepPlan(w, i, reason);
        PastSkipKeepsPlan(rules, wid, MarkSkipped(w, i, reason));
    }
  }

  lemma MarksKeepPlan(w: Workflow, i: nat, reason: string)
    requires i < |w.steps|
    ensures Plan(MarkSkipped(w, i, reason).steps) == Plan(w.steps)
    ensures Plan(MarkDispatched(w, i).steps) == Plan(w.steps)
  {
    PlanOf(w.steps, i, w.steps[i].(status := Dispatched));
    PlanOf(w.steps, i, w.steps[i].(status := Skipped, error := Some(reason)));
  }

  lemma PastSkipKeepsPlan(rules: Rules, wid: Id, w: Workflow)
    ensures var w' := AdvancePastSkip(rules, wid, w).workflow;
            w'.inputs == w.inputs && Plan(w'.steps) == Plan(w.steps)
  {
    var i := NextPending(w.steps);
    if i < |w.steps| {
      MarksKeepPlan(w, i, "");
    }
  }

  /** Every action of every run brings every existing workflow closer, or leaves it. */
  lemma StepBringsCloser(rules: Rules, run: seq<System>, actions: seq<Action>, i: nat, wid: Id)
    requires IsRun(rules, run, actions) && i < |actions| && wid in run[i].db.workflows
    ensures Closer(run[i], run[i + 1], wid)
  {
    RowOf(rules, run, actions, i, wid);
    ActorFits(rules, run, actions, i);
    ActionBringsCloser(rules, run[i], actions[i], run[i + 1], wid);
  }

  lemma ActorFits(rules: Rules, run: seq<System>, actions: seq<Action>, i: nat)
    requires IsRun(rules, run, actions) && i < |actions|
    ensures actions[i].p in run[i].pcs && PcFits(run[i], actions[i].p)
    ensures Next(rules, run[i], actions[i], run[i + 1])
  {
    RunKeeps(rules, run, actions, i);
    assert Next(rules, run[i], actions[i], run[i + 1]);
  }

  /** Still there, with the same plan and inputs, and untouched if it had finished. */
  predicate Remains(s: System, s': System, wid: Id) {
    && wid in s.db.workflows && wid in s'.db.workflows
    && var w, w' := s.db.workflows[wid], s'.db.workflows[wid];
    && w'.inputs == w.inputs && SamePlan(w.steps, w'.steps)
    && (w.Terminal() ==> w' == w && Staged(s'.db.outbox, wid) == Staged(s.db.outbox, wid))
  }

  /** The same steps in the same order, at whatever point of their lives. */
  predicate SamePlan(a: seq<Step>, b: seq<Step>) {
    |a| == |b| && forall k :: 0 <= k < |a| ==>
      a[k].kind == b[k].kind && a[k].jobId == b[k].jobId && a[k].params == b[k].params
  }

  lemma PlansAgree(a: seq<Step>, b: seq<Step>)
    ensures Plan(a) == Plan(b) <==> SamePlan(a, b)
  {
    if Plan(a) == Plan(b) {
      assert forall k :: 0 <= k < |a| ==> Plan(a)[k] == Plan(b)[k];
    }
  }

  /** A workflow keeps the plan and the inputs it was created with, and once it has finished it
      stays exactly as it is for the rest of the run. */
  lemma {:induction false} ForGood(rules: Rules, run: seq<System>, actions: seq<Action>, i: nat, j: nat, wid: Id)
    requires IsRun(rules, run, actions) && i <= j < |run| && wid in run[i].db.workflows
    ensures Remains(run[i], run[j], wid)
    decreases j
  {
    if i == j {
      RemainsItself(run[i], wid);
    } else {
      ForGood(rules, run, actions, i, j - 1, wid);
      ForOneStep(rules, run, actions, j - 1, wid);
      RemainsThen(run[i], run[j - 1], run[j], wid);
    }
  }

  lemma RemainsItself(s: System, wid: Id)
    requires wid in s.db.workflows
    ensures Remains(s, s, wid)
  {
  }

  lemma RemainsThen(s: System, mid: System, s': System, wid: Id)
    requires Remains(s, mid, wid) && Remains(mid, s', wid)
    ensures Remains(s, s', wid)
  {
  }

  lemma ForOneStep(rules: Rules, run: seq<System>, actions: seq<Action>, i: nat, wid: Id)
    requires IsRun(rules, run, actions) && i < |actions| && wid in run[i].db.workflows
    ensures Remains(run[i], run[i + 1], wid)
  {
    StepBringsCloser(rules, run, actions, i, wid);
    PlansAgree(run[i].db.workflows[wid].steps, run[i + 1].db.workflows[wid].steps);
  }

  /** A workflow of n steps accepts at most n completions, however many are delivered. */
  lemma {:induction false} AcceptsAtMostOnePerStep(rules: Rules, run: seq<System>, actions: seq<Action>, i: nat,
                                                   wid: Id)
    requires IsRun(rules, run, actions) && i < |run| && wid in run[i].db.workflows
    ensures wid in run[i].answers
    ensures |run[i].answers[wid]| + Open(run[i].db.workflows[wid].steps) <= |run[i].db.workflows[wid].steps|
  {
    RowOf(rules, run, actions, i, wid);
    if i > 0 {
      if wid in run[i - 1].db.workflows {
        AcceptsAtMostOnePerStep(rules, run, actions, i - 1, wid);
        StepBringsCloser(rules, run, actions, i - 1, wid);
        assert |Plan(run[i].db.workflows[wid].steps)| == |Plan(run[i - 1].db.workflows[wid].steps)|;
      } else {
        ActorFits(rules, run, actions, i - 1);
        BornUnanswered(rules, run[i - 1], actions[i - 1], run[i], wid);
        OpenAtMost(run[i].db.workflows[wid].steps);
      }
    }
  }

  lemma BornUnanswered(rules: Rules, s: System, a: Action, s': System, wid: Id)
    requires Next(rules, s, a, s') && wid !in s.db.workflows && wid in s'.db.workflows
    ensures wid in s'.answers && s'.answers[wid] == map[]
  {
  }
}
