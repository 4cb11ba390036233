/** What every write keeps true of one workflow, and how far the workflow has got on the way
    the sequential interpreter would go.
  */
module RowInvariant {
  import opened Options
  import opened Workflows
  import opened Interpreter

  /** By position: settled steps, then at most one dispatched step, then pending ones. */
  predicate Shape(steps: seq<Step>) {
    forall i, j :: 0 <= i < j < |steps| && !steps[j].status.Pending? ==> steps[i].Settled()
  }

  /** Nothing is started behind a fatal failure. */
  predicate StopsAtFatal(steps: seq<Step>) {
    forall i, j :: 0 <= i < j < |steps| && steps[i].Fatal() ==> steps[j].status.Pending?
  }

  predicate Requestable(s: Step) {
    s.status.Dispatched? || s.status.Completed? || s.status.Failed?
  }

  /** The jobs, in position order, that a request must have been staged for. */
  function Asked(steps: seq<Step>): seq<Id> {
    if steps == [] then []
    else
      var last := steps[|steps| - 1];
      Asked(steps[..|steps| - 1]) + if Requestable(last) then [last.jobId] else []
  }

  function Jobs(events: seq<Event>): seq<Id> {
    if events == [] then []
    else (if events[0].Requested? then [events[0].jobId] else []) + Jobs(events[1..])
  }

  function Notices(events: seq<Event>): nat {
    if events == [] then 0 else (if events[0].Finished? then 1 else 0) + Notices(events[1..])
  }

  lemma {:induction false} JobsConcat(a: seq<Event>, b: seq<Event>)
    ensures Jobs(a + b) == Jobs(a) + Jobs(b)
    ensures Notices(a + b) == Notices(a) + Notices(b)
  {
    if a == [] {
      assert a + b == b;
    } else {
      var head := if a[0].Requested? then [a[0].jobId] else [];
      assert (a + b)[1..] == a[1..] + b;
      assert Jobs(a + b) == head + Jobs(a[1..] + b);
      JobsConcat(a[1..], b);
      assert head + (Jobs(a[1..]) + Jobs(b)) == (head + Jobs(a[1..])) + Jobs(b);
    }
  }

  lemma {:induction false} AskedPrefix(steps: seq<Step>, i: nat)
    requires i <= |steps|
    requires forall k :: i <= k < |steps| ==> !Requestable(steps[k])
    ensures Asked(steps) == Asked(steps[..i])
  {
    if i == |steps| {
      assert steps[..i] == steps;
    } else {
      AskedPrefix(steps[..|steps| - 1], i);
      assert steps[..|steps| - 1][..i] == steps[..i];
    }
  }

  /** What is asked for depends only on which steps are past `pending` and not skipped. */
  lemma {:induction false} AskedSame(a: seq<Step>, b: seq<Step>)
    requires |a| == |b|
    requires forall k :: 0 <= k < |a| ==> a[k].jobId == b[k].jobId && Requestable(a[k]) == Requestable(b[k])
    ensures Asked(a) == Asked(b)
  {
    if |a| > 0 {
      AskedSame(a[..|a| - 1], b[..|b| - 1]);
    }
  }

  lemma AskedDispatch(steps: seq<Step>, i: nat)
    requires i < |steps|
    requires forall k :: i <= k < |steps| ==> steps[k].status.Pending?
    ensures Asked(steps[i := steps[i].(status := Dispatched)]) == Asked(steps) + [steps[i].jobId]
  {
    var after := steps[i := steps[i].(status := Dispatched)];
    AskedPrefix(steps, i);
    AskedPrefix(after, i + 1);
    assert after[..i + 1][..i] == steps[..i];
  }

  /** What is left to do from a row, run without interruption. */
  function Remaining(rules: Rules, wid: Id, w: Workflow, answers: map<Id, Answer>): Progress {
    if w.Terminal() || w.Waiting() then Progress(w, [])
    else if w.HasFatal() then Finish(rules, wid, w, w, Broke, Some(Blame(w.steps, FirstFatal(w.steps))))
    else Resume(rules, Engine, wid, w.(status := Running), NextPending(w.steps), false, answers)
  }

  /** `answers` holds what each completed or failed step was answered with, and no other job. */
  predicate AnswersKept(steps: seq<Step>, answers: map<Id, Answer>) {
    && (forall k :: 0 <= k < |steps| ==>
          (steps[k].jobId in answers <==> steps[k].status.Completed? || steps[k].status.Failed?))
    && (forall k :: 0 <= k < |steps| && steps[k].jobId in answers ==>
          steps[k] == Record(steps[k], answers[steps[k].jobId]))
    && (forall k :: 0 <= k < |steps| && !steps[k].Settled() ==>
          steps[k].result == None && steps[k].error == None)
  }

  predicate StatusAgrees(w: Workflow) {
    && (w.status.Queued? ==> forall k :: 0 <= k < |w.steps| ==> w.steps[k].status.Pending?)
    && (w.Terminal() ==> !w.Waiting())
    && (!w.Terminal() ==> w.error == None)
    && (w.status.Broke? <==> w.error.Some?)
    && (w.status.Succeeded? ==> forall k :: 0 <= k < |w.steps| ==> w.steps[k].Settled() && !w.steps[k].Fatal())
  }

  /** Exactly the right requests, in order, and at most one closing notice. */
  predicate LogAgrees(w: Workflow, staged: seq<Event>) {
    && Jobs(staged) == Asked(w.steps)
    && Notices(staged) <= (if w.Terminal() then 1 else 0)
  }

  /** Finishing from here gives what the interpreter gives from the start. */
  predicate OnTheWay(rules: Rules, wid: Id, w: Workflow, answers: map<Id, Answer>, staged: seq<Event>) {
    After(staged, Remaining(rules, wid, w, answers))
      == Run(rules, Engine, wid, w.inputs, Plan(w.steps), answers)
  }

  predicate Sound(w: Workflow, answers: map<Id, Answer>, staged: seq<Event>) {
    && DistinctJobs(w.steps)
    && Shape(w.steps)
    && StopsAtFatal(w.steps)
    && StatusAgrees(w)
    && AnswersKept(w.steps, answers)
    && LogAgrees(w, staged)
  }

  predicate RowInv(rules: Rules, wid: Id, w: Workflow, answers: map<Id, Answer>, staged: seq<Event>) {
    && Sound(w, answers, staged)
    && OnTheWay(rules, wid, w, answers, staged)
  }

  // ---- creation

  lemma Fresh(rules: Rules, wid: Id, inputs: Inputs, plan: seq<Step>)
    requires DistinctJobs(plan) && Plan(plan) == plan
    ensures RowInv(rules, wid, Workflow(inputs, Queued, None, plan), map[], [])
  {
    var w := Workflow(inputs, Queued, None, plan);
    FreshSound(w);
    FreshOnTheWay(rules, wid, w);
  }

  lemma FreshSound(w: Workflow)
    requires w.status.Queued? && w.error == None && DistinctJobs(w.steps) && Plan(w.steps) == w.steps
    ensures Sound(w, map[], [])
  {
    assert forall k :: 0 <= k < |w.steps| ==> w.steps[k] == Plan(w.steps)[k];
    FreshLog(w);
  }

  lemma FreshLog(w: Workflow)
    requires forall k :: 0 <= k < |w.steps| ==> w.steps[k].status.Pending?
    ensures LogAgrees(w, [])
  {
    AskedPrefix(w.steps, 0);
    assert w.steps[..0] == [];
  }

  lemma FreshOnTheWay(rules: Rules, wid: Id, w: Workflow)
    requires w.status.Queued? && w.error == None && Plan(w.steps) == w.steps
    ensures OnTheWay(rules, wid, w, map[], [])
  {
    assert forall k :: 0 <= k < |w.steps| ==> w.steps[k] == Plan(w.steps)[k];
    assert w.(status := Running) == Workflow(w.inputs, Running, None, w.steps);
    assert NextPending(w.steps) == 0;
    assert !w.Waiting() && !w.HasFatal();
    var rest := Remaining(rules, wid, w, map[]);
    assert [] + rest.events == rest.events;
  }

  /** Leaving the queue changes nothing else. */
  lemma StartRunning(rules: Rules, wid: Id, w: Workflow, answers: map<Id, Answer>, staged: seq<Event>)
    requires RowInv(rules, wid, w, answers, staged)
    requires w.status.Queued?
    ensures RowInv(rules, wid, w.(status := Running, error := None), answers, staged)
  {
    var w' := w.(status := Running, error := None);
    assert !w.Waiting() && !w'.Waiting() && !w.HasFatal() && !w'.HasFatal();
    assert w.(status := Running) == w'.(status := Running);
  }

  // ---- a completion is accepted

  /** The rest of a run once step `k` has its outcome. */
  function Continue(rules: Rules, wid: Id, w: Workflow, k: nat, answers: map<Id, Answer>): Progress
    requires k < |w.steps|
  {
    if w.steps[k].Fatal() then Finish(rules, wid, w, w, Broke, Some(Blame(w.steps, k)))
    else Resume(rules, Engine, wid, w, k + 1, false, answers)
  }

  /** Answering the step the interpreter was waiting for resumes it right there. */
  lemma {:induction false} AnswerResumes(rules: Rules, wid: Id, v: Workflow, i: nat, skipped: bool,
                      answers: map<Id, Answer>, p: Progress, k: nat, a: Answer)
    requires i <= |v.steps| && v.status.Running? && DistinctJobs(v.steps)
    requires i <= k < |v.steps| && v.steps[k].jobId !in answers
    requires p == Resume(rules, Engine, wid, v, i, skipped, answers)
    requires !p.workflow.Terminal() && p.workflow.steps[k].status.Dispatched?
    requires forall j :: i <= j < |v.steps| ==> v.steps[j].status.Pending?
    ensures p.workflow.steps[k].jobId == v.steps[k].jobId
    ensures var w' := SetStep(p.workflow, k, Record(p.workflow.steps[k], a));
            var answers' := answers[v.steps[k].jobId := a];
            Resume(rules, Engine, wid, v, i, skipped, answers')
              == After(p.events, Continue(rules, wid, w', k, answers'))
    decreases |v.steps| - i
  {
    var step := v.steps[i];
    var answers' := answers[v.steps[k].jobId := a];
    match rules.dispatch(v.inputs, v.steps, i)
    case Raised(reason) =>
    case NoWork(reason) =>
      var next := SetStep(v, i, step.(status := Skipped, error := Some(reason)));
      ResumeKeeps(rules, Engine, wid, next, i + 1, true, answers);
      AnswerResumes(rules, wid, next, i + 1, true, answers, p, k, a);
    case Send(request) =>
      var asked := [Requested(wid, step.jobId, request)];
      if step.jobId !in answers {
        assert p == Progress(SetStep(v, i, step.(status := Dispatched)), asked);
        assert k == i;
        AnswerResumesHere(rules, wid, v, i, skipped, answers, a, request);
      } else {
        AnswerResumesLater(rules, wid, v, i, skipped, answers, p, k, a, request);
      }
  }

  /** The same, right at the step the interpreter waits for. */
  lemma AnswerResumesHere(rules: Rules, wid: Id, v: Workflow, i: nat, skipped: bool, answers: map<Id, Answer>,
                          a: Answer, request: Request)
    requires i < |v.steps| && rules.dispatch(v.inputs, v.steps, i) == Send(request)
    ensures var w := SetStep(v, i, v.steps[i].(status := Dispatched));
            var w' := SetStep(w, i, Record(w.steps[i], a));
            var answers' := answers[v.steps[i].jobId := a];
            Resume(rules, Engine, wid, v, i, skipped, answers')
              == After([Requested(wid, v.steps[i].jobId, request)], Continue(rules, wid, w', i, answers'))
  {
    var w := SetStep(v, i, v.steps[i].(status := Dispatched));
    assert SetStep(w, i, Record(w.steps[i], a)) == SetStep(v, i, Record(v.steps[i], a));
  }

  /** The same, past a step that was answered before. */
  lemma {:induction false} AnswerResumesLater(rules: Rules, wid: Id, v: Workflow, i: nat, skipped: bool,
                      answers: map<Id, Answer>, p: Progress, k: nat, a: Answer, request: Request)
    requires i < |v.steps| && v.status.Running? && DistinctJobs(v.steps)
    requires i <= k < |v.steps| && v.steps[k].jobId !in answers
    requires p == Resume(rules, Engine, wid, v, i, skipped, answers)
    requires !p.workflow.Terminal() && p.workflow.steps[k].status.Dispatched?
    requires forall j :: i <= j < |v.steps| ==> v.steps[j].status.Pending?
    requires rules.dispatch(v.inputs, v.steps, i) == Send(request) && v.steps[i].jobId in answers
    ensures p.workflow.steps[k].jobId == v.steps[k].jobId
    ensures var w' := SetStep(p.workflow, k, Record(p.workflow.steps[k], a));
            var answers' := answers[v.steps[k].jobId := a];
            Resume(rules, Engine, wid, v, i, skipped, answers')
              == After(p.events, Continue(rules, wid, w', k, answers'))
    decreases |v.steps| - i, 0
  {
    var step := v.steps[i];
    var asked := [Requested(wid, step.jobId, request)];
    var answers' := answers[v.steps[k].jobId := a];
    var next := SetStep(v, i, Record(step, answers[step.jobId]));
    assert answers'[step.jobId] == answers[step.jobId];
    assert !next.steps[i].Fatal();
    var q := Resume(rules, Engine, wid, next, i + 1, false, answers);
    assert p == After(asked, q);
    ResumeKeeps(rules, Engine, wid, next, i + 1, false, answers);
    assert k != i;
    AnswerResumes(rules, wid, next, i + 1, false, answers, q, k, a);
    var rest := Continue(rules, wid, SetStep(q.workflow, k, Record(q.workflow.steps[k], a)), k, answers');
    assert Resume(rules, Engine, wid, v, i, skipped, answers') == After(asked, After(q.events, rest));
    AfterTwice(asked, q.events, rest);
  }

  lemma AfterTwice(a: seq<Event>, b: seq<Event>, p: Progress)
    ensures After(a, After(b, p)) == After(a + b, p)
  {
    assert a + (b + p.events) == (a + b) + p.events;
  }

  lemma PlanOf(steps: seq<Step>, k: nat, s: Step)
    requires k < |steps|
    requires s.kind == steps[k].kind && s.jobId == steps[k].jobId && s.params == steps[k].params
    ensures Plan(steps[k := s]) == Plan(steps)
  {
  }

  lemma AcceptsSound(w: Workflow, answers: map<Id, Answer>, staged: seq<Event>, k: nat, a: Answer)
    requires Sound(w, answers, staged)
    requires k < |w.steps| && w.steps[k].status.Dispatched?
    ensures Sound(SetStep(w, k, Record(w.steps[k], a)), answers[w.steps[k].jobId := a], staged)
    ensures forall j :: k < j < |w.steps| ==> w.steps[j].status.Pending?
    ensures forall j :: 0 <= j < k ==> w.steps[j].Settled() && !w.steps[j].Fatal()
    ensures w.status.Running? && !Steady(SetStep(w, k, Record(w.steps[k], a)))
  {
    var w' := SetStep(w, k, Record(w.steps[k], a));
    assert w.Waiting();
    AskedSame(w.steps, w'.steps);
    AcceptsAnswers(w.steps, answers, k, a);
  }

  lemma AcceptsAnswers(steps: seq<Step>, answers: map<Id, Answer>, k: nat, a: Answer)
    requires DistinctJobs(steps) && AnswersKept(steps, answers) && k < |steps| && steps[k].status.Dispatched?
    ensures AnswersKept(steps[k := Record(steps[k], a)], answers[steps[k].jobId := a])
  {
  }

  /** `mark_step`: the one dispatched step takes its outcome. */
  lemma Accepts(rules: Rules, wid: Id, w: Workflow, answers: map<Id, Answer>, staged: seq<Event>, k: nat, a: Answer)
    requires RowInv(rules, wid, w, answers, staged)
    requires k < |w.steps| && w.steps[k].status.Dispatched?
    ensures RowInv(rules, wid, SetStep(w, k, Record(w.steps[k], a)), answers[w.steps[k].jobId := a], staged)
  {
    var w' := SetStep(w, k, Record(w.steps[k], a));
    AcceptsSound(w, answers, staged, k, a);
    AcceptsOnTheWay(rules, wid, w, answers, staged, k, a);
  }

  lemma AcceptsOnTheWay(rules: Rules, wid: Id, w: Workflow, answers: map<Id, Answer>, staged: seq<Event>, k: nat,
                        a: Answer)
    requires OnTheWay(rules, wid, w, answers, staged)
    requires DistinctJobs(w.steps) && w.status.Running?
    requires k < |w.steps| && w.steps[k].status.Dispatched? && w.steps[k].jobId !in answers
    requires forall j :: k < j < |w.steps| ==> w.steps[j].status.Pending?
    requires forall j :: 0 <= j < k ==> w.steps[j].Settled() && !w.steps[j].Fatal()
    ensures OnTheWay(rules, wid, SetStep(w, k, Record(w.steps[k], a)), answers[w.steps[k].jobId := a], staged)
  {
    var w' := SetStep(w, k, Record(w.steps[k], a));
    var answers' := answers[w.steps[k].jobId := a];
    WaitsForAnswer(rules, wid, w, answers, staged, k);
    AnswerFromStart(rules, wid, w, answers, staged, k, a);
    PlanOf(w.steps, k, Record(w.steps[k], a));
    AnsweredRemains(rules, wid, w, k, a, answers');
    OnTheWayBy(rules, wid, w', answers', staged, Continue(rules, wid, w', k, answers'));
  }

  lemma AnsweredRemains(rules: Rules, wid: Id, w: Workflow, k: nat, a: Answer, answers: map<Id, Answer>)
    requires w.status.Running? && k < |w.steps|
    requires forall j :: k < j < |w.steps| ==> w.steps[j].status.Pending?
    requires forall j :: 0 <= j < k ==> w.steps[j].Settled() && !w.steps[j].Fatal()
    ensures var w' := SetStep(w, k, Record(w.steps[k], a));
            Remaining(rules, wid, w', answers) == Continue(rules, wid, w', k, answers)
  {
    Remains(rules, wid, SetStep(w, k, Record(w.steps[k], a)), k, answers);
  }

  lemma OnTheWayBy(rules: Rules, wid: Id, w: Workflow, answers: map<Id, Answer>, staged: seq<Event>, rest: Progress)
    requires Remaining(rules, wid, w, answers) == rest
    requires After(staged, rest) == Run(rules, Engine, wid, w.inputs, Plan(w.steps), answers)
    ensures OnTheWay(rules, wid, w, answers, staged)
  {
  }

  /** An answer to the job a whole run waits for continues that run. */
  lemma AnswerFromStart(rules: Rules, wid: Id, w: Workflow, answers: map<Id, Answer>, staged: seq<Event>, k: nat,
                        a: Answer)
    requires Progress(w, staged) == Run(rules, Engine, wid, w.inputs, Plan(w.steps), answers)
    requires DistinctJobs(w.steps) && w.status.Running?
    requires k < |w.steps| && w.steps[k].status.Dispatched? && w.steps[k].jobId !in answers
    ensures var w' := SetStep(w, k, Record(w.steps[k], a));
            var answers' := answers[w.steps[k].jobId := a];
            Run(rules, Engine, wid, w.inputs, Plan(w.steps), answers')
              == After(staged, Continue(rules, wid, w', k, answers'))
  {
    var start := Workflow(w.inputs, Running, None, Plan(w.steps));
    AnswerResumes(rules, wid, start, 0, false, answers, Progress(w, staged), k, a);
  }

  /** The interpreter has come as far as the row, and is waiting there. */
  lemma WaitsForAnswer(rules: Rules, wid: Id, w: Workflow, answers: map<Id, Answer>, staged: seq<Event>, k: nat)
    requires OnTheWay(rules, wid, w, answers, staged)
    requires k < |w.steps| && w.steps[k].status.Dispatched?
    ensures Progress(w, staged) == Run(rules, Engine, wid, w.inputs, Plan(w.steps), answers)
  {
    assert w.Waiting();
    assert staged + [] == staged;
  }

  /** A running row whose last settled step is `k` has exactly `Continue` left to do. */
  lemma Remains(rules: Rules, wid: Id, w: Workflow, k: nat, answers: map<Id, Answer>)
    requires w.status.Running? && k < |w.steps| && w.steps[k].Settled()
    requires forall j :: k < j < |w.steps| ==> w.steps[j].status.Pending?
    requires forall j :: 0 <= j < k ==> w.steps[j].Settled() && !w.steps[j].Fatal()
    ensures Remaining(rules, wid, w, answers) == Continue(rules, wid, w, k, answers)
  {
    assert !w.Waiting();
    if w.steps[k].Fatal() {
      assert w.HasFatal();
      assert FirstFatal(w.steps) == k;
    } else {
      assert !w.HasFatal();
      NextPendingIs(w.steps, k + 1);
      assert w.(status := Running) == w;
    }
  }

  // ---- advance

  predicate Steady(w: Workflow) {
    w.Terminal() || w.Waiting()
  }

  /** One `advance` on an up-to-date row does the next part of what remains, and nothing else. */
  lemma Advances(rules: Rules, wid: Id, w: Workflow, answers: map<Id, Answer>, staged: seq<Event>)
    requires RowInv(rules, wid, w, answers, staged)
    ensures var p := Advance(rules, wid, w, w);
            RowInv(rules, wid, p.workflow, answers, staged + p.events) && Steady(p.workflow)
  {
    var p := Advance(rules, wid, w, w);
    if Steady(w) {
      if w.Waiting() { assert !w.HasFatal() by { WaitingNotFatal(w); } }
      assert staged + [] == staged;
    } else if w.HasFatal() {
      Closes(rules, wid, w, answers, staged, Broke, p.workflow.error);
    } else {
      AdvancesPending(rules, wid, w, answers, staged);
    }
  }

  lemma WaitingNotFatal(w: Workflow)
    requires Shape(w.steps) && StopsAtFatal(w.steps) && w.Waiting()
    ensures !w.HasFatal()
  {
    var d :| 0 <= d < |w.steps| && w.steps[d].status.Dispatched?;
    forall f | 0 <= f < |w.steps| ensures !w.steps[f].Fatal() {
      if f < d {} else if f > d {}
    }
  }

  /** Writing a terminal status over a row with nothing dispatched. */
  lemma Closes(rules: Rules, wid: Id, w: Workflow, answers: map<Id, Answer>, staged: seq<Event>,
               status: Status, error: Option<Failure>)
    requires DistinctJobs(w.steps) && Shape(w.steps) && StopsAtFatal(w.steps) && AnswersKept(w.steps, answers)
    requires LogAgrees(w, staged) && !w.Terminal() && !w.Waiting()
    requires || (status.Succeeded? && error == None
                 && forall k :: 0 <= k < |w.steps| ==> w.steps[k].Settled() && !w.steps[k].Fatal())
             || (status.Broke? && error.Some?)
    requires After(staged, Finish(rules, wid, w, w, status, error))
             == Run(rules, Engine, wid, w.inputs, Plan(w.steps), answers)
    ensures var p := Finish(rules, wid, w, w, status, error);
            RowInv(rules, wid, p.workflow, answers, staged + p.events) && Steady(p.workflow)
  {
    var p := Finish(rules, wid, w, w, status, error);
    JobsConcat(staged, p.events);
    assert (staged + p.events) + [] == staged + p.events;
  }

  /** Dispatching the first pending step. */
  lemma Dispatches(rules: Rules, wid: Id, w: Workflow, answers: map<Id, Answer>, staged: seq<Event>,
                   i: nat, request: Request)
    requires DistinctJobs(w.steps) && AnswersKept(w.steps, answers) && !w.Terminal()
    requires Upto(w.steps, i) && i < |w.steps|
    requires LogAgrees(w, staged)
    requires var p := Dispatch(wid, w, i, request);
             After(staged, p) == Run(rules, Engine, wid, w.inputs, Plan(w.steps), answers)
    ensures var p := Dispatch(wid, w, i, request);
            RowInv(rules, wid, p.workflow, answers, staged + p.events) && Steady(p.workflow)
  {
    var p := Dispatch(wid, w, i, request);
    var w' := p.workflow;
    assert w'.steps[i].status.Dispatched?;
    DispatchesSound(wid, w, answers, staged, i, request);
    PlanOf(w.steps, i, w'.steps[i]);
    assert (staged + p.events) + [] == staged + p.events;
  }

  lemma DispatchesSound(wid: Id, w: Workflow, answers: map<Id, Answer>, staged: seq<Event>,
                        i: nat, request: Request)
    requires DistinctJobs(w.steps) && AnswersKept(w.steps, answers) && !w.Terminal()
    requires Upto(w.steps, i) && i < |w.steps|
    requires LogAgrees(w, staged)
    ensures var p := Dispatch(wid, w, i, request);
            Sound(p.workflow, answers, staged + p.events)
  {
    var p := Dispatch(wid, w, i, request);
    assert p.workflow.steps == w.steps[i := w.steps[i].(status := Dispatched)];
    AskedDispatch(w.steps, i);
    JobsConcat(staged, p.events);
    assert Jobs(p.events) == [w.steps[i].jobId];
  }

  /** The first pending step settles what an uninterrupted run does next. */
  lemma AdvancesPending(rules: Rules, wid: Id, w: Workflow, answers: map<Id, Answer>, staged: seq<Event>)
    requires RowInv(rules, wid, w, answers, staged)
    requires !Steady(w) && !w.HasFatal()
    ensures var p := Advance(rules, wid, w, w);
            RowInv(rules, wid, p.workflow, answers, staged + p.events) && Steady(p.workflow)
  {
    var i := NextPending(w.steps);
    PendingTail(w, i);
    AdvanceIs(rules, wid, w, i);
    if i < |w.steps| && rules.dispatch(w.inputs, w.steps, i).NoWork? {
      AdvancesPastSkip(rules, wid, w, answers, staged, i, rules.dispatch(w.inputs, w.steps, i).reason);
    } else {
      Moves(rules, wid, w, answers, staged, i, false);
    }
  }

  lemma AdvanceIs(rules: Rules, wid: Id, w: Workflow, i: nat)
    requires !Steady(w) && !w.HasFatal() && i == NextPending(w.steps)
    ensures Advance(rules, wid, w, w) ==
            if i < |w.steps| && rules.dispatch(w.inputs, w.steps, i).NoWork?
            then AdvancePastSkip(rules, wid, MarkSkipped(w, i, rules.dispatch(w.inputs, w.steps, i).reason))
            else AdvancePastSkip(rules, wid, w)
  {
  }

  lemma PendingTail(w: Workflow, i: nat)
    requires Shape(w.steps) && !w.Waiting() && !w.HasFatal() && i == NextPending(w.steps)
    ensures Upto(w.steps, i)
  {
    forall k | 0 <= k < i ensures w.steps[k].Settled() {
      assert !w.steps[k].status.Dispatched?;
    }
    forall k | i <= k < |w.steps| ensures w.steps[k].status.Pending? {
    }
  }

  /** From a row settled up to `i` whose remaining run starts at `i`: finish or dispatch. */
  lemma Moves(rules: Rules, wid: Id, w: Workflow, answers: map<Id, Answer>, staged: seq<Event>, i: nat, skipped: bool)
    requires DistinctJobs(w.steps) && AnswersKept(w.steps, answers) && !w.Terminal()
    requires Upto(w.steps, i) && i == NextPending(w.steps)
    requires LogAgrees(w, staged) && w.error == None
    requires i < |w.steps| && rules.dispatch(w.inputs, w.steps, i).NoWork? ==> skipped
    requires After(staged, Resume(rules, Engine, wid, w.(status := Running), i, skipped, answers))
             == Run(rules, Engine, wid, w.inputs, Plan(w.steps), answers)
    ensures var p := AdvancePastSkip(rules, wid, w);
            RowInv(rules, wid, p.workflow, answers, staged + p.events) && Steady(p.workflow)
  {
    assert i < |w.steps| ==> w.steps[i].jobId !in answers;
    MovesAlike(rules, wid, w, answers, i, skipped);
    MovesOnce(rules, wid, w, answers, staged, i);
  }

  lemma MovesOnce(rules: Rules, wid: Id, w: Workflow, answers: map<Id, Answer>, staged: seq<Event>, i: nat)
    requires DistinctJobs(w.steps) && AnswersKept(w.steps, answers) && !w.Terminal()
    requires Upto(w.steps, i) && i == NextPending(w.steps) && LogAgrees(w, staged)
    requires After(staged, AdvancePastSkip(rules, wid, w))
             == Run(rules, Engine, wid, w.inputs, Plan(w.steps), answers)
    ensures var p := AdvancePastSkip(rules, wid, w);
            RowInv(rules, wid, p.workflow, answers, staged + p.events) && Steady(p.workflow)
  {
    if i < |w.steps| && rules.dispatch(w.inputs, w.steps, i).Send? {
      Dispatches(rules, wid, w, answers, staged, i, rules.dispatch(w.inputs, w.steps, i).request);
    } else {
      UptoShape(w, i);
      var p := AdvancePastSkip(rules, wid, w);
      Closes(rules, wid, w, answers, staged, p.workflow.status, p.workflow.error);
    }
  }

  lemma UptoShape(w: Workflow, i: nat)
    requires Upto(w.steps, i)
    ensures Shape(w.steps) && StopsAtFatal(w.steps) && !w.Waiting()
  {
  }

  /** With no answer to the step at `i`, the engine's move is all that the interpreter does. */
  lemma MovesAlike(rules: Rules, wid: Id, w: Workflow, answers: map<Id, Answer>, i: nat, skipped: bool)
    requires Upto(w.steps, i) && i == NextPending(w.steps) && w.error == None
    requires i < |w.steps| ==> w.steps[i].jobId !in answers
    requires i < |w.steps| && rules.dispatch(w.inputs, w.steps, i).NoWork? ==> skipped
    ensures AdvancePastSkip(rules, wid, w)
         == Resume(rules, Engine, wid, w.(status := Running), i, skipped, answers)
  {
  }

  lemma AdvancesPastSkip(rules: Rules, wid: Id, w: Workflow, answers: map<Id, Answer>, staged: seq<Event>,
                         i: nat, reason: string)
    requires RowInv(rules, wid, w, answers, staged)
    requires !Steady(w) && !w.HasFatal()
    requires Upto(w.steps, i) && i < |w.steps| && i == NextPending(w.steps)
    requires rules.dispatch(w.inputs, w.steps, i) == NoWork(reason)
    ensures var p := AdvancePastSkip(rules, wid, MarkSkipped(w, i, reason));
            RowInv(rules, wid, p.workflow, answers, staged + p.events) && Steady(p.workflow)
  {
    var s := MarkSkipped(w, i, reason);
    SkipKeeps(w, answers, staged, i, reason);
    SkipRemains(rules, wid, w, answers, i, reason);
    PlanOf(w.steps, i, s.steps[i]);
    Moves(rules, wid, s, answers, staged, i + 1, true);
  }

  /** What is left to do starts with the skip. */
  lemma SkipRemains(rules: Rules, wid: Id, w: Workflow, answers: map<Id, Answer>, i: nat, reason: string)
    requires !Steady(w) && !w.HasFatal() && i < |w.steps| && i == NextPending(w.steps)
    requires rules.dispatch(w.inputs, w.steps, i) == NoWork(reason)
    ensures var s := MarkSkipped(w, i, reason);
            Remaining(rules, wid, w, answers) == Resume(rules, Engine, wid, s.(status := Running), i + 1, true, answers)
  {
    assert MarkSkipped(w, i, reason).(status := Running)
        == SetStep(w.(status := Running), i, w.steps[i].(status := Skipped, error := Some(reason)));
  }

  lemma SkipKeeps(w: Workflow, answers: map<Id, Answer>, staged: seq<Event>, i: nat, reason: string)
    requires Sound(w, answers, staged) && Upto(w.steps, i) && i < |w.steps|
    ensures var s := MarkSkipped(w, i, reason);
            && DistinctJobs(s.steps) && AnswersKept(s.steps, answers) && LogAgrees(s, staged)
            && Upto(s.steps, i + 1) && NextPending(s.steps) == i + 1
  {
    var s := MarkSkipped(w, i, reason);
    AskedSame(w.steps, s.steps);
    NextPendingIs(s.steps, i + 1);
    SkipKeepsAnswers(w, answers, i, reason);
  }

  lemma SkipKeepsAnswers(w: Workflow, answers: map<Id, Answer>, i: nat, reason: string)
    requires DistinctJobs(w.steps) && AnswersKept(w.steps, answers)
    requires i < |w.steps| && w.steps[i].status.Pending?
    ensures var s := MarkSkipped(w, i, reason);
            DistinctJobs(s.steps) && AnswersKept(s.steps, answers)
  {
    var s := MarkSkipped(w, i, reason);
    assert w.steps[i].jobId !in answers;
    forall k | 0 <= k < |s.steps|
      ensures s.steps[k].jobId == w.steps[k].jobId && (k != i ==> s.steps[k] == w.steps[k])
    {
    }
  }

  lemma {:induction false} NextPendingIs(steps: seq<Step>, i: nat)
    requires i <= |steps|
    requires forall k :: 0 <= k < i ==> !steps[k].status.Pending?
    requires i < |steps| ==> steps[i].status.Pending?
    ensures NextPending(steps) == i
  {
    if i > 0 {
      NextPendingIs(steps[1..], i - 1);
    }
  }
}
