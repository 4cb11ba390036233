/** Several orchestrator processes over one database, a bus that may duplicate, reorder or forge
    completion events, and crashes at any point.

    A process handles one event at a time. Its control state says which commits are behind it:
      Created(w)     it inserted workflow w and has not yet set it running
      Owes(w)        it must still advance w (it set w running, or a completion of w matched)
      Locked(w, r)   inside `advance`: it holds the row lock of w and has read r
    A transaction becomes visible at its commit, so a crash inside `advance` leaves no trace but
    the released lock. A handler that raises leaves the tables as a crash does. `mark_step` takes no
    lock, so nothing here keeps it from committing while another process is Locked; that it never
    hits the locked workflow is part of the invariant.
  */
module Protocol {
  import opened Options
  import opened Workflows
  import opened Interpreter
  import opened RowInvariant

  type Pid = nat

  datatype Db = Db(workflows: map<Id, Workflow>, outbox: seq<Event>)

  datatype Pc = Idle | Created(wid: Id) | Owes(wid: Id) | Locked(wid: Id, read: Workflow)

  /** `answers` records, per workflow, the completions that were accepted; `lost` the workflows
      some process crashed on while it still owed them an `advance`. Neither is read by a step. */
  datatype System = System(
    db: Db, pcs: map<Pid, Pc>, answers: map<Id, map<Id, Answer>>, lost: set<Id>)

  datatype Action =
    | Create(p: Pid, wid: Id, inputs: Inputs, plan: seq<Step>)
    | SetRunning(p: Pid)
    | Accept(p: Pid, jobId: Id, answer: Answer)
    | Lock(p: Pid)
    | Commit(p: Pid)
    | Crash(p: Pid)

  function Staged(outbox: seq<Event>, wid: Id): seq<Event> {
    if outbox == [] then []
    else (if outbox[0].workflowId == wid then [outbox[0]] else []) + Staged(outbox[1..], wid)
  }

  ghost predicate JobUnused(db: Db, jobId: Id) {
    forall wid, i :: wid in db.workflows && 0 <= i < |db.workflows[wid].steps| ==>
      db.workflows[wid].steps[i].jobId != jobId
  }

  predicate Matches(db: Db, wid: Id, i: nat, jobId: Id) {
    && wid in db.workflows && i < |db.workflows[wid].steps|
    && db.workflows[wid].steps[i].jobId == jobId
    && db.workflows[wid].steps[i].status.Dispatched?
  }

  predicate LockFree(s: System, wid: Id) {
    forall q :: q in s.pcs && s.pcs[q].Locked? ==> s.pcs[q].wid != wid
  }

  // ---- the steps

  /** The primary key and the unique job index refuse anything that is already there. */
  ghost predicate Creates(s: System, p: Pid, wid: Id, inputs: Inputs, plan: seq<Step>, s': System)
    requires p in s.pcs
  {
    && s.pcs[p].Idle?
    && wid !in s.db.workflows
    && Plan(plan) == plan && DistinctJobs(plan)
    && (forall i :: 0 <= i < |plan| ==> JobUnused(s.db, plan[i].jobId))
    && s' == s.(db := s.db.(workflows := s.db.workflows[wid := Workflow(inputs, Queued, None, plan)]),
                pcs := s.pcs[p := Created(wid)],
                answers := s.answers[wid := map[]])
  }

  predicate SetsRunning(s: System, p: Pid, s': System)
    requires p in s.pcs
  {
    && s.pcs[p].Created?
    && var wid := s.pcs[p].wid;
    && wid in s.db.workflows && LockFree(s, wid)
    && s' == s.(db := s.db.(workflows := s.db.workflows[wid :=
                  s.db.workflows[wid].(status := Running, error := None)]),
                pcs := s.pcs[p := Owes(wid)])
  }

  function Accepted(s: System, p: Pid, wid: Id, i: nat, a: Answer): System
    requires wid in s.db.workflows && i < |s.db.workflows[wid].steps| && wid in s.answers
  {
    var w := s.db.workflows[wid];
    s.(db := s.db.(workflows := s.db.workflows[wid := SetStep(w, i, Record(w.steps[i], a))]),
       pcs := s.pcs[p := Owes(wid)],
       answers := s.answers[wid := s.answers[wid][w.steps[i].jobId := a]])
  }

  /** A completion that matches no dispatched step changes nothing. */
  ghost predicate Accepts(s: System, p: Pid, jobId: Id, a: Answer, s': System)
    requires p in s.pcs
  {
    && s.pcs[p].Idle?
    && (|| (exists wid, i ::
              Matches(s.db, wid, i, jobId) && wid in s.answers && s' == Accepted(s, p, wid, i, a))
        || ((forall wid, i :: !Matches(s.db, wid, i, jobId)) && s' == s))
  }

  predicate Locks(s: System, p: Pid, s': System)
    requires p in s.pcs
  {
    && s.pcs[p].Owes?
    && var wid := s.pcs[p].wid;
    && wid in s.db.workflows && LockFree(s, wid)
    && s' == s.(pcs := s.pcs[p := Locked(wid, s.db.workflows[wid])])
  }

  function Committed(s: System, p: Pid, wid: Id, r: Progress): System {
    s.(db := Db(s.db.workflows[wid := r.workflow], s.db.outbox + r.events), pcs := s.pcs[p := Idle])
  }

  predicate Commits(rules: Rules, s: System, p: Pid, s': System)
    requires p in s.pcs
  {
    && s.pcs[p].Locked?
    && var wid := s.pcs[p].wid;
    && wid in s.db.workflows
    && |s.pcs[p].read.steps| == |s.db.workflows[wid].steps|
    && var r := Advance(rules, wid, s.pcs[p].read, s.db.workflows[wid]);
    && s' == Committed(s, p, wid, r)
  }

  predicate Crashes(s: System, p: Pid, s': System)
    requires p in s.pcs
  {
    s' == s.(pcs := s.pcs[p := Idle],
             lost := if s.pcs[p].Idle? then s.lost else s.lost + {s.pcs[p].wid})
  }

  ghost predicate Next(rules: Rules, s: System, a: Action, s': System) {
    && a.p in s.pcs
    && match a
       case Create(p, wid, inputs, plan) => Creates(s, p, wid, inputs, plan, s')
       case SetRunning(p) => SetsRunning(s, p, s')
       case Accept(p, jobId, answer) => Accepts(s, p, jobId, answer, s')
       case Lock(p) => Locks(s, p, s')
       case Commit(p) => Commits(rules, s, p, s')
       case Crash(p) => Crashes(s, p, s')
  }

  predicate Init(s: System) {
    && s.db == Db(map[], []) && s.answers == map[] && s.lost == {}
    && forall p :: p in s.pcs ==> s.pcs[p].Idle?
  }

  ghost predicate IsRun(rules: Rules, run: seq<System>, actions: seq<Action>) {
    && |run| == |actions| + 1
    && Init(run[0])
    && forall i :: 0 <= i < |actions| ==> Next(rules, run[i], actions[i], run[i + 1])
  }

  // ---- the invariant

  /** A busy process has its workflow to itself in this sense: the workflow is not on record as
      lost, has neither finished nor is waiting for a job, and what was read under the lock is
      still the row. */
  predicate PcFits(s: System, p: Pid)
    requires p in s.pcs
  {
    s.pcs[p].Idle? ||
    (var wid := s.pcs[p].wid;
     && wid in s.db.workflows && wid !in s.lost && !Steady(s.db.workflows[wid])
     && (s.pcs[p].Created? <==> s.db.workflows[wid].status.Queued?)
     && (s.pcs[p].Locked? ==> s.pcs[p].read == s.db.workflows[wid]))
  }

  /** Not busy with the same workflow. */
  predicate Apart(a: Pc, b: Pc) {
    a.Idle? || b.Idle? || a.wid != b.wid
  }

  predicate Exclusive(s: System) {
    forall p, q :: p in s.pcs && q in s.pcs && p != q ==> Apart(s.pcs[p], s.pcs[q])
  }

  predicate OnDuty(s: System, p: Pid, wid: Id) {
    p in s.pcs && !s.pcs[p].Idle? && s.pcs[p].wid == wid
  }

  /** A workflow that has neither finished nor waits is being handled, or was lost. */
  ghost predicate Looked(s: System, wid: Id) {
    wid in s.db.workflows ==>
      Steady(s.db.workflows[wid]) || wid in s.lost || exists p :: OnDuty(s, p, wid)
  }

  /** A workflow that was lost has neither finished nor waits. */
  predicate LostFits(s: System, wid: Id) {
    wid in s.lost ==> wid in s.db.workflows && !Steady(s.db.workflows[wid])
  }

  /** Who is busy with what, and who will bring each workflow forward. */
  ghost predicate Duties(s: System) {
    && (forall p :: p in s.pcs ==> PcFits(s, p))
    && Exclusive(s)
    && (forall wid :: Looked(s, wid) && LostFits(s, wid))
  }

  predicate DisjointJobs(a: seq<Step>, b: seq<Step>) {
    forall i, j :: 0 <= i < |a| && 0 <= j < |b| ==> a[i].jobId != b[j].jobId
  }

  ghost predicate JobsApart(db: Db) {
    forall v, w :: v in db.workflows && w in db.workflows && v != w ==>
      DisjointJobs(db.workflows[v].steps, db.workflows[w].steps)
  }

  /** A property of one workflow row, its accepted answers and its staged events. */
  type RowRule = (Id, Workflow, map<Id, Answer>, seq<Event>) -> bool

  function RowInvOf(rules: Rules): RowRule {
    (wid, w, answers, staged) => RowInv(rules, wid, w, answers, staged)
  }

  predicate RowsFit(inv: RowRule, s: System) {
    && s.answers.Keys == s.db.workflows.Keys
    && (forall wid :: wid in s.db.workflows ==>
          inv(wid, s.db.workflows[wid], s.answers[wid], Staged(s.db.outbox, wid)))
    && (forall k :: 0 <= k < |s.db.outbox| ==> s.db.outbox[k].workflowId in s.db.workflows)
  }

  ghost predicate Inv(inv: RowRule, s: System) {
    && RowsFit(inv, s)
    && JobsApart(s.db)
    && Duties(s)
  }

  // ---- the log

  lemma {:induction false} StagedConcat(a: seq<Event>, b: seq<Event>, wid: Id)
    ensures Staged(a + b, wid) == Staged(a, wid) + Staged(b, wid)
  {
    if a == [] {
      assert a + b == b;
    } else {
      var head := if a[0].workflowId == wid then [a[0]] else [];
      assert (a + b)[1..] == a[1..] + b;
      assert Staged(a + b, wid) == head + Staged(a[1..] + b, wid);
      StagedConcat(a[1..], b, wid);
      assert head + (Staged(a[1..], wid) + Staged(b, wid)) == (head + Staged(a[1..], wid)) + Staged(b, wid);
    }
  }

  lemma {:induction false} StagedAll(events: seq<Event>, wid: Id)
    requires forall k :: 0 <= k < |events| ==> events[k].workflowId == wid
    ensures Staged(events, wid) == events
  {
    if events != [] {
      StagedAll(events[1..], wid);
    }
  }

  lemma {:induction false} StagedNone(events: seq<Event>, wid: Id)
    requires forall k :: 0 <= k < |events| ==> events[k].workflowId != wid
    ensures Staged(events, wid) == []
  {
    if events != [] {
      StagedNone(events[1..], wid);
    }
  }

  lemma AdvanceStagesItsOwn(rules: Rules, wid: Id, read: Workflow, now: Workflow)
    requires |read.steps| == |now.steps|
    ensures var p := Advance(rules, wid, read, now);
            forall k :: 0 <= k < |p.events| ==> p.events[k].workflowId == wid
  {
  }

  // ---- every step keeps the invariant

  /** Only workflow `wid` was written, its jobs stayed, and only process `p` moved. */
  ghost predicate Touches(s: System, s': System, p: Pid, wid: Id) {
    && p in s.pcs && s'.pcs.Keys == s.pcs.Keys
    && (forall q :: q in s.pcs && q != p ==> s'.pcs[q] == s.pcs[q])
    && (s.pcs[p].Idle? || s.pcs[p].wid == wid)
    && (s'.pcs[p].Idle? || s'.pcs[p].wid == wid)
    && s'.db.workflows.Keys == s.db.workflows.Keys + {wid}
    && s'.answers.Keys == s.answers.Keys + {wid}
    && (forall v :: v in s.db.workflows && v != wid ==> s'.db.workflows[v] == s.db.workflows[v])
    && (forall v :: v in s.answers && v != wid ==> s'.answers[v] == s.answers[v])
    && (forall v :: v in s.db.workflows && v != wid ==> Staged(s'.db.outbox, v) == Staged(s.db.outbox, v))
    && (forall k :: 0 <= k < |s'.db.outbox| ==> s'.db.outbox[k].workflowId in s'.db.workflows)
    && s'.lost == s.lost
  }

  predicate SameJobs(a: seq<Step>, b: seq<Step>) {
    |a| == |b| && forall i :: 0 <= i < |a| ==> a[i].jobId == b[i].jobId
  }

  lemma RowsKept(inv: RowRule, s: System, s': System, p: Pid, wid: Id)
    requires RowsFit(inv, s) && Touches(s, s', p, wid)
    requires inv(wid, s'.db.workflows[wid], s'.answers[wid], Staged(s'.db.outbox, wid))
    ensures RowsFit(inv, s')
  {
  }

  lemma JobsKept(s: System, s': System, p: Pid, wid: Id)
    requires JobsApart(s.db) && Touches(s, s', p, wid)
    requires wid in s.db.workflows && SameJobs(s.db.workflows[wid].steps, s'.db.workflows[wid].steps)
    ensures JobsApart(s'.db)
  {
  }

  /** Whoever acts on a workflow that nobody else is busy with, and is either still busy with it
      or leaves it finished or waiting, keeps all duties in order. */
  lemma DutiesKept(s: System, s': System, p: Pid, wid: Id)
    requires Duties(s) && Touches(s, s', p, wid) && wid !in s.lost
    requires forall q :: q in s.pcs && q != p ==> s.pcs[q].Idle? || s.pcs[q].wid != wid
    requires PcFits(s', p) && (s'.pcs[p].Idle? ==> Steady(s'.db.workflows[wid]))
    ensures Duties(s')
  {
    forall q | q in s'.pcs ensures PcFits(s', q) {
      assert PcFits(s, q);
    }
    forall v ensures Looked(s', v) && LostFits(s', v) {
      assert Looked(s, v) && LostFits(s, v);
      if v == wid {
        assert s'.pcs[p].Idle? || OnDuty(s', p, wid);
      } else if v in s'.db.workflows && !Steady(s'.db.workflows[v]) && v !in s'.lost {
        var q :| OnDuty(s, q, v);
        assert OnDuty(s', q, v);
      }
    }
  }

  /** A busy process is alone with its workflow. */
  lemma Alone(s: System, p: Pid)
    requires Duties(s) && p in s.pcs && !s.pcs[p].Idle?
    ensures s.pcs[p].wid in s.db.workflows && s.pcs[p].wid !in s.lost && PcFits(s, p)
    ensures forall q :: q in s.pcs && q != p ==> s.pcs[q].Idle? || s.pcs[q].wid != s.pcs[p].wid
  {
    assert PcFits(s, p);
    forall q | q in s.pcs && q != p ensures s.pcs[q].Idle? || s.pcs[q].wid != s.pcs[p].wid {
      assert Apart(s.pcs[p], s.pcs[q]);
    }
  }

  /** Nobody is busy with a workflow that has finished or waits, or that does not exist. */
  lemma NobodyThere(s: System, wid: Id)
    requires Duties(s) && (wid in s.db.workflows ==> Steady(s.db.workflows[wid]))
    ensures wid !in s.lost
    ensures forall q :: q in s.pcs ==> s.pcs[q].Idle? || s.pcs[q].wid != wid
  {
    assert LostFits(s, wid);
    forall q | q in s.pcs ensures s.pcs[q].Idle? || s.pcs[q].wid != wid {
      assert PcFits(s, q);
    }
  }

  lemma CreateKeeps(inv: RowRule, s: System, p: Pid, wid: Id, inputs: Inputs, plan: seq<Step>, s': System)
    requires Inv(inv, s) && p in s.pcs && Creates(s, p, wid, inputs, plan, s')
    requires inv(wid, s'.db.workflows[wid], map[], [])
    ensures Inv(inv, s')
  {
    assert Touches(s, s', p, wid);
    StagedNone(s.db.outbox, wid);
    RowsKept(inv, s, s', p, wid);
    CreateJobs(s, p, wid, inputs, plan, s');
    NobodyThere(s, wid);
    NotWaiting(plan);
    DutiesKept(s, s', p, wid);
  }

  lemma NotWaiting(plan: seq<Step>)
    requires Plan(plan) == plan
    ensures forall k :: 0 <= k < |plan| ==> plan[k].status.Pending?
  {
    assert forall k :: 0 <= k < |plan| ==> plan[k] == Plan(plan)[k];
  }

  lemma CreateJobs(s: System, p: Pid, wid: Id, inputs: Inputs, plan: seq<Step>, s': System)
    requires JobsApart(s.db) && p in s.pcs && Creates(s, p, wid, inputs, plan, s')
    ensures JobsApart(s'.db)
  {
    forall v | v in s.db.workflows ensures DisjointJobs(s.db.workflows[v].steps, plan) {
    }
  }

  lemma SetRunningKeeps(inv: RowRule, s: System, p: Pid, s': System)
    requires Inv(inv, s) && p in s.pcs && SetsRunning(s, p, s')
    requires var wid := s.pcs[p].wid;
             inv(wid, s'.db.workflows[wid], s.answers[wid], Staged(s.db.outbox, wid))
    ensures Inv(inv, s')
  {
    var wid := s.pcs[p].wid;
    Alone(s, p);
    assert Touches(s, s', p, wid);
    RowsKept(inv, s, s', p, wid);
    JobsKept(s, s', p, wid);
    DutiesKept(s, s', p, wid);
  }

  lemma AcceptKeeps(inv: RowRule, s: System, p: Pid, wid: Id, i: nat, a: Answer)
    requires Inv(inv, s) && p in s.pcs && s.pcs[p].Idle?
    requires wid in s.db.workflows && i < |s.db.workflows[wid].steps|
    requires s.db.workflows[wid].steps[i].status.Dispatched? && s.db.workflows[wid].status.Running?
    requires var s' := Accepted(s, p, wid, i, a);
             && inv(wid, s'.db.workflows[wid], s'.answers[wid], Staged(s'.db.outbox, wid))
             && !Steady(s'.db.workflows[wid])
    ensures Inv(inv, Accepted(s, p, wid, i, a))
  {
    var s' := Accepted(s, p, wid, i, a);
    assert s.db.workflows[wid].Waiting();
    NobodyThere(s, wid);
    AcceptTouches(s, p, wid, i, a);
    RowsKept(inv, s, s', p, wid);
    JobsKept(s, s', p, wid);
    DutiesKept(s, s', p, wid);
  }

  lemma AcceptTouches(s: System, p: Pid, wid: Id, i: nat, a: Answer)
    requires p in s.pcs && s.pcs[p].Idle? && wid in s.answers
    requires wid in s.db.workflows && i < |s.db.workflows[wid].steps|
    requires forall k :: 0 <= k < |s.db.outbox| ==> s.db.outbox[k].workflowId in s.db.workflows
    ensures var s' := Accepted(s, p, wid, i, a);
            && Touches(s, s', p, wid) && SameJobs(s.db.workflows[wid].steps, s'.db.workflows[wid].steps)
  {
  }

  lemma LockKeeps(inv: RowRule, s: System, p: Pid, s': System)
    requires Inv(inv, s) && p in s.pcs && Locks(s, p, s')
    ensures Inv(inv, s')
  {
    var wid := s.pcs[p].wid;
    Alone(s, p);
    assert s'.db == s.db && s'.answers == s.answers;
    assert Touches(s, s', p, wid);
    DutiesKept(s, s', p, wid);
  }

  lemma CommitKeeps(inv: RowRule, s: System, p: Pid, wid: Id, read: Workflow, r: Progress)
    requires Inv(inv, s) && p in s.pcs && s.pcs[p] == Locked(wid, read) && wid in s.db.workflows
    requires inv(wid, r.workflow, s.answers[wid], Staged(s.db.outbox, wid) + r.events)
    requires forall k :: 0 <= k < |r.events| ==> r.events[k].workflowId == wid
    requires SameJobs(s.db.workflows[wid].steps, r.workflow.steps) && Steady(r.workflow)
    ensures Inv(inv, Committed(s, p, wid, r))
  {
    var s' := Committed(s, p, wid, r);
    Alone(s, p);
    CommitTouches(s, p, wid, read, r);
    RowsKept(inv, s, s', p, wid);
    JobsKept(s, s', p, wid);
    DutiesKept(s, s', p, wid);
  }

  lemma CommitTouches(s: System, p: Pid, wid: Id, read: Workflow, r: Progress)
    requires p in s.pcs && s.pcs[p] == Locked(wid, read) && wid in s.db.workflows && wid in s.answers
    requires forall k :: 0 <= k < |s.db.outbox| ==> s.db.outbox[k].workflowId in s.db.workflows
    requires forall k :: 0 <= k < |r.events| ==> r.events[k].workflowId == wid
    ensures var s' := Committed(s, p, wid, r);
            && Touches(s, s', p, wid)
            && Staged(s'.db.outbox, wid) == Staged(s.db.outbox, wid) + r.events
  {
    CommitLog(s.db.outbox, r.events, wid);
  }

  lemma AdvanceKeepsJobs(rules: Rules, wid: Id, read: Workflow, w: Workflow)
    requires |read.steps| == |w.steps|
    ensures SameJobs(w.steps, Advance(rules, wid, read, w).workflow.steps)
  {
    var i := NextPending(read.steps);
    if i < |w.steps| {
      match rules.dispatch(read.inputs, read.steps, i)
      case Raised(_) =>
      case Send(_) =>
      case NoWork(reason) =>
        var skipped := MarkSkipped(w, i, reason);
        assert SameJobs(w.steps, skipped.steps);
        PastSkipKeepsJobs(rules, wid, skipped);
    }
  }

  lemma PastSkipKeepsJobs(rules: Rules, wid: Id, w: Workflow)
    ensures SameJobs(w.steps, AdvancePastSkip(rules, wid, w).workflow.steps)
  {
  }

  lemma CommitLog(outbox: seq<Event>, events: seq<Event>, wid: Id)
    requires forall k :: 0 <= k < |events| ==> events[k].workflowId == wid
    ensures Staged(outbox + events, wid) == Staged(outbox, wid) + events
    ensures forall v :: v != wid ==> Staged(outbox + events, v) == Staged(outbox, v)
  {
    StagedConcat(outbox, events, wid);
    StagedAll(events, wid);
    forall v | v != wid ensures Staged(outbox + events, v) == Staged(outbox, v) {
      StagedConcat(outbox, events, v);
      StagedNone(events, v);
    }
  }

  lemma CrashKeeps(inv: RowRule, s: System, p: Pid, s': System)
    requires Inv(inv, s) && p in s.pcs && Crashes(s, p, s')
    ensures Inv(inv, s')
  {
    assert s'.db == s.db && s'.answers == s.answers;
    if !s.pcs[p].Idle? {
      Alone(s, p);
    }
    forall q | q in s'.pcs ensures PcFits(s', q) {
      assert PcFits(s, q);
    }
    forall v ensures Looked(s', v) && LostFits(s', v) {
      assert Looked(s, v) && LostFits(s, v);
      if v in s'.db.workflows && !Steady(s'.db.workflows[v]) && v !in s'.lost {
        var q :| OnDuty(s, q, v);
        assert OnDuty(s', q, v);
      }
    }
  }

  /** No action of any process breaks the invariant. */
  lemma NextKeeps(rules: Rules, s: System, a: Action, s': System)
    requires Inv(RowInvOf(rules), s) && Next(rules, s, a, s')
    ensures Inv(RowInvOf(rules), s')
  {
    var inv := RowInvOf(rules);
    assert PcFits(s, a.p);
    match a
    case Create(p, wid, inputs, plan) =>
      Fresh(rules, wid, inputs, plan);
      CreateKeeps(inv, s, p, wid, inputs, plan, s');
    case SetRunning(p) =>
      var wid := s.pcs[p].wid;
      StartRunning(rules, wid, s.db.workflows[wid], s.answers[wid], Staged(s.db.outbox, wid));
      SetRunningKeeps(inv, s, p, s');
    case Accept(p, jobId, answer) =>
      if s' != s {
        var wid, i :| Matches(s.db, wid, i, jobId) && wid in s.answers && s' == Accepted(s, p, wid, i, answer);
        assert inv(wid, s.db.workflows[wid], s.answers[wid], Staged(s.db.outbox, wid));
        AcceptRow(rules, wid, s.db.workflows[wid], s.answers[wid], Staged(s.db.outbox, wid), i, answer);
        AcceptKeeps(inv, s, p, wid, i, answer);
      }
    case Lock(p) => LockKeeps(inv, s, p, s');
    case Commit(p) =>
      var wid, w := s.pcs[p].wid, s.pcs[p].read;
      assert inv(wid, w, s.answers[wid], Staged(s.db.outbox, wid));
      CommitRow(rules, wid, w, s.answers[wid], Staged(s.db.outbox, wid));
      CommitKeeps(inv, s, p, wid, w, Advance(rules, wid, w, w));
    case Crash(p) => CrashKeeps(inv, s, p, s');
  }

  lemma AcceptRow(rules: Rules, wid: Id, w: Workflow, answers: map<Id, Answer>, staged: seq<Event>, i: nat, a: Answer)
    requires RowInv(rules, wid, w, answers, staged) && i < |w.steps| && w.steps[i].status.Dispatched?
    ensures var w' := SetStep(w, i, Record(w.steps[i], a));
            && RowInv(rules, wid, w', answers[w.steps[i].jobId := a], staged)
            && !Steady(w') && w.status.Running?
  {
    AcceptsSound(w, answers, staged, i, a);
    RowInvariant.Accepts(rules, wid, w, answers, staged, i, a);
  }

  lemma CommitRow(rules: Rules, wid: Id, w: Workflow, answers: map<Id, Answer>, staged: seq<Event>)
    requires RowInv(rules, wid, w, answers, staged)
    ensures var r := Advance(rules, wid, w, w);
            && RowInv(rules, wid, r.workflow, answers, staged + r.events)
            && Steady(r.workflow) && SameJobs(w.steps, r.workflow.steps)
            && forall k :: 0 <= k < |r.events| ==> r.events[k].workflowId == wid
  {
    Advances(rules, wid, w, answers, staged);
    AdvanceStagesItsOwn(rules, wid, w, w);
    AdvanceKeepsJobs(rules, wid, w, w);
  }

  lemma InitFits(rules: Rules, s: System)
    requires Init(s)
    ensures Inv(RowInvOf(rules), s)
  {
    assert forall wid :: Looked(s, wid) && LostFits(s, wid);
  }

  lemma {:induction false} RunKeeps(rules: Rules, run: seq<System>, actions: seq<Action>, i: nat)
    requires IsRun(rules, run, actions) && i < |run|
    ensures Inv(RowInvOf(rules), run[i])
  {
    if i == 0 {
      InitFits(rules, run[0]);
    } else {
      RunKeeps(rules, run, actions, i - 1);
      NextKeeps(rules, run[i - 1], actions[i - 1], run[i]);
    }
  }
}
