/** What the steps and the events of a workflow say: every step as it was answered or skipped, every
    request as it was built, every end with its reason.

    This is stated of the rows and the events themselves, step by step and field by field, first for
    the sequential interpreter and then for every reachable state of the protocol.
  */
module Accounts {
  import opened Options
  import opened Workflows
  import opened Interpreter
  import opened RowInvariant
  import opened Protocol
  import opened Orchestration

  // ---- steps

  /** The steps as they stood when it was step `k`'s turn. */
  function Before(plan: seq<Step>, steps: seq<Step>, k: nat): seq<Step>
    requires k <= |steps| && k <= |plan|
  {
    steps[..k] + plan[k..]
  }

  /** A step stands as it was answered: its request could be built, and status, result and error are
      those of the answer. */
  predicate AnsweredAs(s: Step, a: Answer) {
    && (if a.failed then s.status == Failed else s.status == Completed)
    && s.result == Some(a.result) && s.error == a.error
  }

  /** How step `k` stands. */
  predicate StepFits(rules: Rules, inputs: Inputs, plan: seq<Step>, steps: seq<Step>, answers: map<Id, Answer>, k: nat)
    requires k < |steps| == |plan|
  {
    var s := steps[k];
    var turn := rules.dispatch(inputs, Before(plan, steps, k), k);
    && s.kind == plan[k].kind && s.jobId == plan[k].jobId && s.params == plan[k].params
    && match s.status
       case Pending => s.result == None && s.error == None
       case Dispatched => turn.Send? && s.jobId !in answers && s.result == None && s.error == None
       case Skipped => turn.NoWork? && s.result == None && s.error == Some(turn.reason)
       case _ => turn.Send? && s.jobId in answers && AnsweredAs(s, answers[s.jobId])
  }

  predicate StepsFit(rules: Rules, inputs: Inputs, plan: seq<Step>, steps: seq<Step>, answers: map<Id, Answer>) {
    |steps| == |plan| && forall k :: 0 <= k < |steps| ==> StepFits(rules, inputs, plan, steps, answers, k)
  }

  // ---- ends

  /** Step `k` is the first to have failed; the crawl of a competitor may fail. */
  predicate FirstToFail(steps: seq<Step>, k: nat) {
    && k < |steps| && steps[k].status == Failed && steps[k].kind != CompetitorCrawl
    && forall j :: 0 <= j < k ==> steps[j].status != Failed || steps[j].kind == CompetitorCrawl
  }

  /** It was step `k`'s turn and its request could not be built: building it raised, or it had
      nothing to do and neither had the step before it. */
  predicate StuckAt(rules: Rules, w: Workflow, k: nat, reason: string) {
    && Upto(w.steps, k) && k < |w.steps|
    && match rules.dispatch(w.inputs, w.steps, k)
       case Send(_) => false
       case Raised(why) => why == reason
       case NoWork(why) => why == reason && k > 0 && w.steps[k - 1].status.Skipped?
  }

  /** What a failed workflow blames: the position, counted from one, the kind and the error of the
      first fatal failure, or the reason why a request could not be built. */
  ghost predicate Blames(rules: Rules, w: Workflow, f: Failure) {
    match f
    case StepFailed(position, kind, error) =>
      && position > 0 && FirstToFail(w.steps, position - 1)
      && w.steps[position - 1].kind == kind && w.steps[position - 1].error == error
    case CannotDispatch(reason) => exists k: nat :: StuckAt(rules, w, k, reason)
  }

  /** Nothing more to do, and not failed unless it crawled a competitor. */
  predicate DoneWith(s: Step) {
    match s.status
    case Completed => true
    case Skipped => true
    case Failed => s.kind == CompetitorCrawl
    case _ => false
  }

  /** Status and error of a workflow agree with its steps. */
  ghost predicate EndFits(rules: Rules, w: Workflow) {
    match w.status
    case Succeeded => w.error == None && forall k :: 0 <= k < |w.steps| ==> DoneWith(w.steps[k])
    case Broke => w.error.Some? && Blames(rules, w, w.error.value)
    case _ => w.error == None
  }

  // ---- events

  predicate LineFits(line: StepReport, s: Step) {
    && line.kind == s.kind && line.jobId == s.jobId && line.status == s.status
    && line.error == s.error && line.result == s.result
  }

  /** The request for step `k`: the job of that step, and what building its request came to. */
  predicate AsksFor(rules: Rules, plan: seq<Step>, w: Workflow, jobId: Id, request: Request, k: nat) {
    && k < |w.steps| == |plan| && w.steps[k].jobId == jobId && Requestable(w.steps[k])
    && rules.dispatch(w.inputs, Before(plan, w.steps, k), k) == Send(request)
  }

  /** What an event of a workflow carries. */
  ghost predicate EventFits(rules: Rules, wid: Id, plan: seq<Step>, w: Workflow, e: Event) {
    match e
    case Requested(v, jobId, request) => v == wid && exists k: nat :: AsksFor(rules, plan, w, jobId, request, k)
    case Finished(v, status, error, lines) =>
      && v == wid && w.Terminal() && status == w.status && error == w.error
      && |lines| == |w.steps| && forall k :: 0 <= k < |lines| ==> LineFits(lines[k], w.steps[k])
  }

  ghost predicate EventsFit(rules: Rules, wid: Id, plan: seq<Step>, p: Progress) {
    forall k :: 0 <= k < |p.events| ==> EventFits(rules, wid, plan, p.workflow, p.events[k])
  }

  // ---- the interpreter

  predicate Untouched(plan: seq<Step>) {
    forall k :: 0 <= k < |plan| ==> plan[k].status == Pending && plan[k].result == None && plan[k].error == None
  }

  /** A running row whose steps are as told up to `i`, and as planned from there on. */
  predicate Begun(rules: Rules, plan: seq<Step>, w: Workflow, i: nat, answers: map<Id, Answer>) {
    && Untouched(plan) && Upto(w.steps, i) && StepsFit(rules, w.inputs, plan, w.steps, answers)
    && w.status == Running && w.error == None
    && forall k :: i <= k < |plan| ==> w.steps[k] == plan[k]
  }

  ghost predicate Accounted(rules: Rules, wid: Id, plan: seq<Step>, p: Progress, answers: map<Id, Answer>) {
    && StepsFit(rules, p.workflow.inputs, plan, p.workflow.steps, answers)
    && EndFits(rules, p.workflow) && EventsFit(rules, wid, plan, p)
  }

  lemma TurnIs(plan: seq<Step>, steps: seq<Step>, i: nat)
    requires |plan| == |steps| && i <= |plan| && forall k :: i <= k < |plan| ==> steps[k] == plan[k]
    ensures Before(plan, steps, i) == steps
  {
  }

  /** Only what comes before a step matters for its turn. */
  lemma TurnSame(plan: seq<Step>, a: seq<Step>, b: seq<Step>, i: nat)
    requires |plan| == |a| == |b| && i <= |plan| && forall k :: 0 <= k < i ==> a[k] == b[k]
    ensures Before(plan, a, i) == Before(plan, b, i)
  {
    assert a[..i] == b[..i];
  }

  /** One more step told. */
  lemma ToldOne(rules: Rules, inputs: Inputs, plan: seq<Step>, steps: seq<Step>, answers: map<Id, Answer>, i: nat,
                s: Step)
    requires StepsFit(rules, inputs, plan, steps, answers) && Untouched(plan) && i < |steps|
    requires forall k :: i <= k < |plan| ==> steps[k] == plan[k]
    requires StepFits(rules, inputs, plan, steps[i := s], answers, i)
    ensures StepsFit(rules, inputs, plan, steps[i := s], answers)
  {
    var next := steps[i := s];
    forall k | 0 <= k < |next| ensures StepFits(rules, inputs, plan, next, answers, k) {
      assert StepFits(rules, inputs, plan, steps, answers, k);
      if k < i {
        TurnSame(plan, steps, next, k);
      }
    }
  }

  lemma EndAccounts(rules: Rules, wid: Id, plan: seq<Step>, w: Workflow, status: Status, error: Option<Failure>,
                    answers: map<Id, Answer>)
    requires StepsFit(rules, w.inputs, plan, w.steps, answers)
    requires status.Succeeded? || status.Broke?
    requires EndFits(rules, w.(status := status, error := error))
    ensures Accounted(rules, wid, plan, Finish(rules, wid, w, w, status, error), answers)
  {
  }

  /** The interpreter's account of a run is right, whatever its habit. */
  lemma {:induction false} RunAccounts(rules: Rules, habit: Habit, wid: Id, plan: seq<Step>, w: Workflow, i: nat,
                                       skipped: bool, answers: map<Id, Answer>)
    requires Begun(rules, plan, w, i, answers)
    requires skipped <==> i > 0 && w.steps[i - 1].status.Skipped?
    ensures Accounted(rules, wid, plan, Resume(rules, habit, wid, w, i, skipped, answers), answers)
    decreases |w.steps| - i, 1
  {
    if i == |w.steps| {
      EndAccounts(rules, wid, plan, w, Succeeded, None, answers);
    } else {
      match rules.dispatch(w.inputs, w.steps, i)
      case Raised(reason) =>
        assert StuckAt(rules, w.(status := Broke, error := Some(CannotDispatch(reason))), i, reason);
        EndAccounts(rules, wid, plan, w, Broke, Some(CannotDispatch(reason)), answers);
      case NoWork(reason) => SkipAccounts(rules, habit, wid, plan, w, i, skipped, answers, reason);
      case Send(request) => RequestAccounts(rules, habit, wid, plan, w, i, skipped, answers, request);
    }
  }

  lemma {:induction false} SkipAccounts(rules: Rules, habit: Habit, wid: Id, plan: seq<Step>, w: Workflow, i: nat,
                                        skipped: bool, answers: map<Id, Answer>, reason: string)
    requires Begun(rules, plan, w, i, answers) && i < |w.steps|
    requires skipped <==> i > 0 && w.steps[i - 1].status.Skipped?
    requires rules.dispatch(w.inputs, w.steps, i) == NoWork(reason)
    ensures Accounted(rules, wid, plan, Resume(rules, habit, wid, w, i, skipped, answers), answers)
    decreases |w.steps| - i, 0
  {
    if skipped && habit.Engine? {
      assert StuckAt(rules, w.(status := Broke, error := Some(CannotDispatch(reason))), i, reason);
      EndAccounts(rules, wid, plan, w, Broke, Some(CannotDispatch(reason)), answers);
    } else {
      var s := w.steps[i].(status := Skipped, error := Some(reason));
      SkipTold(rules, plan, w, i, answers, reason);
      RunAccounts(rules, habit, wid, plan, SetStep(w, i, s), i + 1, true, answers);
    }
  }

  lemma SkipTold(rules: Rules, plan: seq<Step>, w: Workflow, i: nat, answers: map<Id, Answer>, reason: string)
    requires Begun(rules, plan, w, i, answers) && i < |w.steps|
    requires rules.dispatch(w.inputs, w.steps, i) == NoWork(reason)
    ensures Begun(rules, plan, SetStep(w, i, w.steps[i].(status := Skipped, error := Some(reason))), i + 1, answers)
  {
    var s := w.steps[i].(status := Skipped, error := Some(reason));
    TurnIs(plan, w.steps, i);
    TurnSame(plan, w.steps, w.steps[i := s], i);
    ToldOne(rules, w.inputs, plan, w.steps, answers, i, s);
    UptoNext(w.steps, i, s);
  }

  /** A request at the head of a run, for a step the run then leaves dispatched or answered. */
  lemma RequestFirst(rules: Rules, wid: Id, plan: seq<Step>, w: Workflow, i: nat, request: Request, p: Progress,
                     answers: map<Id, Answer>)
    requires Accounted(rules, wid, plan, p, answers) && i < |w.steps| == |plan| == |p.workflow.steps|
    requires p.workflow.inputs == w.inputs
    requires forall k :: i <= k < |plan| ==> w.steps[k] == plan[k]
    requires forall k :: 0 <= k < i ==> p.workflow.steps[k] == w.steps[k]
    requires rules.dispatch(w.inputs, w.steps, i) == Send(request)
    requires p.workflow.steps[i].jobId == w.steps[i].jobId && Requestable(p.workflow.steps[i])
    ensures Accounted(rules, wid, plan, After([Requested(wid, w.steps[i].jobId, request)], p), answers)
  {
    var e := Requested(wid, w.steps[i].jobId, request);
    TurnIs(plan, w.steps, i);
    TurnSame(plan, w.steps, p.workflow.steps, i);
    assert AsksFor(rules, plan, p.workflow, w.steps[i].jobId, request, i);
    var all := [e] + p.events;
    forall k | 0 <= k < |all| ensures EventFits(rules, wid, plan, p.workflow, all[k]) {
      assert k > 0 ==> all[k] == p.events[k - 1];
    }
  }

  lemma {:induction false} RequestAccounts(rules: Rules, habit: Habit, wid: Id, plan: seq<Step>, w: Workflow, i: nat,
                                           skipped: bool, answers: map<Id, Answer>, request: Request)
    requires Begun(rules, plan, w, i, answers) && i < |w.steps|
    requires rules.dispatch(w.inputs, w.steps, i) == Send(request)
    ensures Accounted(rules, wid, plan, Resume(rules, habit, wid, w, i, skipped, answers), answers)
    decreases |w.steps| - i, 0
  {
    var jobId := w.steps[i].jobId;
    if jobId in answers {
      AnswerAccounts(rules, habit, wid, plan, w, i, skipped, answers, request);
    } else {
      var s := w.steps[i].(status := Dispatched);
      var p := Progress(SetStep(w, i, s), []);
      TurnIs(plan, w.steps, i);
      TurnSame(plan, w.steps, w.steps[i := s], i);
      ToldOne(rules, w.inputs, plan, w.steps, answers, i, s);
      RequestFirst(rules, wid, plan, w, i, request, p, answers);
      var asked := [Requested(wid, jobId, request)];
      assert asked + [] == asked;
      assert Resume(rules, habit, wid, w, i, skipped, answers) == After(asked, p);
    }
  }

  lemma AnswerTold(rules: Rules, plan: seq<Step>, w: Workflow, i: nat, answers: map<Id, Answer>)
    requires Begun(rules, plan, w, i, answers) && i < |w.steps|
    requires rules.dispatch(w.inputs, w.steps, i).Send? && w.steps[i].jobId in answers
    ensures var next := SetStep(w, i, Record(w.steps[i], answers[w.steps[i].jobId]));
            && StepsFit(rules, w.inputs, plan, next.steps, answers)
            && (!next.steps[i].Fatal() ==> Begun(rules, plan, next, i + 1, answers))
  {
    var s := Record(w.steps[i], answers[w.steps[i].jobId]);
    TurnIs(plan, w.steps, i);
    TurnSame(plan, w.steps, w.steps[i := s], i);
    ToldOne(rules, w.inputs, plan, w.steps, answers, i, s);
    if !s.Fatal() {
      UptoNext(w.steps, i, s);
    }
  }

  lemma {:induction false} AnswerAccounts(rules: Rules, habit: Habit, wid: Id, plan: seq<Step>, w: Workflow, i: nat,
                                          skipped: bool, answers: map<Id, Answer>, request: Request)
    requires Begun(rules, plan, w, i, answers) && i < |w.steps| && w.steps[i].jobId in answers
    requires rules.dispatch(w.inputs, w.steps, i) == Send(request)
    ensures Accounted(rules, wid, plan, Resume(rules, habit, wid, w, i, skipped, answers), answers)
    decreases |w.steps| - i, 0, 0
  {
    var next := SetStep(w, i, Record(w.steps[i], answers[w.steps[i].jobId]));
    AnswerTold(rules, plan, w, i, answers);
    if next.steps[i].Fatal() {
      var failure := Some(Blame(next.steps, i));
      assert FirstToFail(next.steps, i);
      EndAccounts(rules, wid, plan, next, Broke, failure, answers);
      RequestFirst(rules, wid, plan, w, i, request, Finish(rules, wid, next, next, Broke, failure), answers);
    } else {
      var rest := Resume(rules, habit, wid, next, i + 1, false, answers);
      RunAccounts(rules, habit, wid, plan, next, i + 1, false, answers);
      ResumeKeeps(rules, habit, wid, next, i + 1, false, answers);
      assert forall k :: 0 <= k < i ==> rest.workflow.steps[k] == next.steps[k];
      assert rest.workflow.steps[i] == next.steps[i];
      RequestFirst(rules, wid, plan, w, i, request, rest, answers);
    }
  }

  /** A whole run of the interpreter, from an untouched plan. */
  lemma WholeAccounts(rules: Rules, habit: Habit, wid: Id, inputs: Inputs, plan: seq<Step>, answers: map<Id, Answer>)
    requires Plan(plan) == plan
    ensures Untouched(plan) && Accounted(rules, wid, plan, Run(rules, habit, wid, inputs, plan, answers), answers)
  {
    assert forall k :: 0 <= k < |plan| ==> plan[k] == Plan(plan)[k];
    RunAccounts(rules, habit, wid, plan, Workflow(inputs, Running, None, plan), 0, false, answers);
  }

  // ---- every reachable state

  /** The run the interpreter makes of a row. */
  function WholeOf(rules: Rules, wid: Id, w: Workflow, answers: map<Id, Answer>): Progress {
    Run(rules, Engine, wid, w.inputs, Plan(w.steps), answers)
  }

  lemma WholeFits(rules: Rules, wid: Id, w: Workflow, answers: map<Id, Answer>)
    ensures Untouched(Plan(w.steps)) && Accounted(rules, wid, Plan(w.steps), WholeOf(rules, wid, w, answers), answers)
  {
    assert Plan(Plan(w.steps)) == Plan(w.steps);
    WholeAccounts(rules, Engine, wid, w.inputs, Plan(w.steps), answers);
  }

  /** In every reachable state, crashes included, every step stands as it was answered or skipped. */
  lemma StepsTell(rules: Rules, run: seq<System>, actions: seq<Action>, i: nat, wid: Id, k: nat)
    requires IsRun(rules, run, actions) && i < |run| && wid in run[i].db.workflows
    requires k < |run[i].db.workflows[wid].steps|
    ensures wid in run[i].answers
    ensures var w := run[i].db.workflows[wid];
            StepFits(rules, w.inputs, Plan(w.steps), w.steps, run[i].answers[wid], k)
  {
    RowOf(rules, run, actions, i, wid);
    NeverStrays(rules, run, actions, i, wid);
    var w, answers := run[i].db.workflows[wid], run[i].answers[wid];
    WholeFits(rules, wid, w, answers);
    if w.steps[k].Settled() {
      SettledTell(rules, w, WholeOf(rules, wid, w, answers).workflow.steps, answers, k);
    } else if w.steps[k].status.Dispatched? {
      assert w.Waiting();
      RefinesInterpreter(rules, run, actions, i, wid);
      assert StepFits(rules, w.inputs, Plan(w.steps), w.steps, answers, k);
    }
  }

  /** A settled step stands as in the whole run, and so does everything before it. */
  lemma SettledTell(rules: Rules, w: Workflow, whole: seq<Step>, answers: map<Id, Answer>, k: nat)
    requires Shape(w.steps) && k < |w.steps| == |whole| && w.steps[k].Settled()
    requires StepsFit(rules, w.inputs, Plan(w.steps), whole, answers)
    requires forall j :: 0 <= j < |whole| && w.steps[j].Settled() ==> whole[j] == w.steps[j]
    ensures StepFits(rules, w.inputs, Plan(w.steps), w.steps, answers, k)
  {
    assert StepFits(rules, w.inputs, Plan(w.steps), whole, answers, k);
    TurnSame(Plan(w.steps), whole, w.steps, k);
  }

  /** In every reachable state status and error of a workflow agree with its steps; a failed one
      blames the right step. */
  lemma EndTells(rules: Rules, run: seq<System>, actions: seq<Action>, i: nat, wid: Id)
    requires IsRun(rules, run, actions) && i < |run| && wid in run[i].db.workflows
    ensures EndFits(rules, run[i].db.workflows[wid])
  {
    RowOf(rules, run, actions, i, wid);
    var w := run[i].db.workflows[wid];
    if w.Terminal() {
      RefinesInterpreter(rules, run, actions, i, wid);
      WholeFits(rules, wid, w, run[i].answers[wid]);
    }
  }

  /** In every reachable state every event in the outbox carries what it should: a request the job
      and the request of its step, an announcement the status, the error and the steps of the
      workflow that has ended. */
  lemma EventsTell(rules: Rules, run: seq<System>, actions: seq<Action>, i: nat, k: nat)
    requires IsRun(rules, run, actions) && i < |run| && k < |run[i].db.outbox|
    ensures var e := run[i].db.outbox[k];
            && e.workflowId in run[i].db.workflows
            && var w := run[i].db.workflows[e.workflowId];
               EventFits(rules, e.workflowId, Plan(w.steps), w, e)
  {
    var e := run[i].db.outbox[k];
    var wid := e.workflowId;
    RunKeeps(rules, run, actions, i);
    RowOf(rules, run, actions, i, wid);
    NeverStrays(rules, run, actions, i, wid);
    var w, answers, staged := run[i].db.workflows[wid], run[i].answers[wid], Staged(run[i].db.outbox, wid);
    WholeFits(rules, wid, w, answers);
    StagedThere(run[i].db.outbox, wid, k);
    var whole := WholeOf(rules, wid, w, answers);
    var n :| 0 <= n < |staged| && staged[n] == e;
    assert whole.events[n] == e;
    if e.Finished? {
      NoticeThere(staged, n);
      RefinesInterpreter(rules, run, actions, i, wid);
    } else {
      JobThere(staged, n);
      SameJobsAs(rules, w, whole.workflow.steps, answers);
      RequestTells(rules, wid, Plan(w.steps), w, whole.workflow, e);
    }
  }

  /** A request of the whole run that was staged is for a step of the row. */
  lemma RequestTells(rules: Rules, wid: Id, plan: seq<Step>, w: Workflow, whole: Workflow, e: Event)
    requires DistinctJobs(w.steps) && Shape(w.steps) && |whole.steps| == |w.steps| == |plan|
    requires whole.inputs == w.inputs && forall k :: 0 <= k < |plan| ==> whole.steps[k].jobId == w.steps[k].jobId
    requires forall k :: 0 <= k < |plan| && w.steps[k].Settled() ==> whole.steps[k] == w.steps[k]
    requires e.Requested? && EventFits(rules, wid, plan, whole, e) && e.jobId in Asked(w.steps)
    ensures EventFits(rules, wid, plan, w, e)
  {
    var k: nat :| AsksFor(rules, plan, whole, e.jobId, e.request, k);
    var j := AskedAt(w.steps, e.jobId);
    assert whole.steps[k].jobId == w.steps[k].jobId;
    assert j == k;
    TurnSame(plan, whole.steps, w.steps, k);
    assert AsksFor(rules, plan, w, e.jobId, e.request, k);
  }

  lemma SameJobsAs(rules: Rules, w: Workflow, whole: seq<Step>, answers: map<Id, Answer>)
    requires StepsFit(rules, w.inputs, Plan(w.steps), whole, answers)
    ensures |whole| == |w.steps| && forall k :: 0 <= k < |whole| ==> whole[k].jobId == w.steps[k].jobId
  {
    forall k | 0 <= k < |whole| ensures whole[k].jobId == w.steps[k].jobId {
      assert StepFits(rules, w.inputs, Plan(w.steps), whole, answers, k);
    }
  }

  lemma {:induction false} AskedAt(steps: seq<Step>, jobId: Id) returns (j: nat)
    requires jobId in Asked(steps)
    ensures j < |steps| && steps[j].jobId == jobId && Requestable(steps[j])
  {
    var last := steps[|steps| - 1];
    if Requestable(last) && last.jobId == jobId {
      j := |steps| - 1;
    } else {
      j := AskedAt(steps[..|steps| - 1], jobId);
    }
  }

  lemma {:induction false} StagedThere(outbox: seq<Event>, wid: Id, k: nat)
    requires k < |outbox| && outbox[k].workflowId == wid
    ensures exists n :: 0 <= n < |Staged(outbox, wid)| && Staged(outbox, wid)[n] == outbox[k]
  {
    var head := if outbox[0].workflowId == wid then [outbox[0]] else [];
    var rest := Staged(outbox[1..], wid);
    assert Staged(outbox, wid) == head + rest;
    if k == 0 {
      assert (head + rest)[0] == outbox[0];
    } else {
      StagedThere(outbox[1..], wid, k - 1);
      var n :| 0 <= n < |rest| && rest[n] == outbox[1..][k - 1];
      assert (head + rest)[|head| + n] == outbox[k];
    }
  }

  lemma {:induction false} NoticeThere(events: seq<Event>, n: nat)
    requires n < |events| && events[n].Finished?
    ensures Notices(events) > 0
  {
    if n > 0 {
      NoticeThere(events[1..], n - 1);
    }
  }

  lemma {:induction false} JobThere(events: seq<Event>, n: nat)
    requires n < |events| && events[n].Requested?
    ensures events[n].jobId in Jobs(events)
  {
    if n > 0 {
      JobThere(events[1..], n - 1);
    }
  }
}
