/** A sequential interpreter of a plan: the reference the orchestrator is compared with.

    It walks the steps in position order, with every answer it will ever get in hand. It knows
    nothing of locks, redelivery or saved state. When a step's answer is missing it stops there,
    waiting.
  */
module Interpreter {
  import opened Options
  import opened Workflows

  /** What happens when a step straight after a skipped one has nothing to do either. */
  datatype Habit =
    | Plain   // skip it too
    | Engine  // give up, as the orchestrator does

  /** Run the steps from index `i` on; the earlier ones are settled. */
  function Resume(rules: Rules, habit: Habit, wid: Id, w: Workflow, i: nat, skipped: bool,
                  answers: map<Id, Answer>): (p: Progress)
    requires i <= |w.steps|
    ensures |p.workflow.steps| == |w.steps| && p.workflow.inputs == w.inputs
    decreases |w.steps| - i
  {
    if i == |w.steps| then Finish(rules, wid, w, w, Succeeded, None)
    else
      var step := w.steps[i];
      match rules.dispatch(w.inputs, w.steps, i)
      case Raised(reason) => Finish(rules, wid, w, w, Broke, Some(CannotDispatch(reason)))
      case NoWork(reason) =>
        if skipped && habit.Engine? then
          Finish(rules, wid, w, w, Broke, Some(CannotDispatch(reason)))
        else
          var next := SetStep(w, i, step.(status := Skipped, error := Some(reason)));
          Resume(rules, habit, wid, next, i + 1, true, answers)
      case Send(request) =>
        var asked := [Requested(wid, step.jobId, request)];
        if step.jobId !in answers then
          Progress(SetStep(w, i, step.(status := Dispatched)), asked)
        else
          var next := SetStep(w, i, Record(step, answers[step.jobId]));
          After(asked,
            if next.steps[i].Fatal() then Finish(rules, wid, next, next, Broke, Some(Blame(next.steps, i)))
            else Resume(rules, habit, wid, next, i + 1, false, answers))
  }

  /** The plan a workflow was created from: its steps, none of them started. */
  function Plan(steps: seq<Step>): (p: seq<Step>)
    ensures |p| == |steps|
    ensures forall k :: 0 <= k < |p| ==> p[k] == steps[k].(status := Pending, result := None, error := None)
  {
    if steps == [] then []
    else [steps[0].(status := Pending, result := None, error := None)] + Plan(steps[1..])
  }

  function Run(rules: Rules, habit: Habit, wid: Id, inputs: Inputs, plan: seq<Step>,
               answers: map<Id, Answer>): Progress
  {
    Resume(rules, habit, wid, Workflow(inputs, Running, None, plan), 0, false, answers)
  }

  predicate DistinctJobs(steps: seq<Step>) {
    forall i, j :: 0 <= i < j < |steps| ==> steps[i].jobId != steps[j].jobId
  }

  /** Steps settled up to `i`, none of them fatally, and untouched from there on. */
  predicate Upto(steps: seq<Step>, i: nat) {
    && i <= |steps|
    && (forall k :: 0 <= k < i ==> steps[k].Settled() && !steps[k].Fatal())
    && (forall k :: i <= k < |steps| ==> steps[k].status.Pending?)
  }

  /** Two steps in a row, from index `i - 1` on, that were both skipped. */
  predicate SkipsTwice(steps: seq<Step>, i: nat) {
    exists k :: i <= k < |steps| && k > 0 && steps[k - 1].status.Skipped? && steps[k].status.Skipped?
  }

  /** The interpreter never goes back: what is settled at `i` stays as it was. */
  lemma {:induction false} ResumeKeeps(rules: Rules, habit: Habit, wid: Id, w: Workflow, i: nat, skipped: bool,
                    answers: map<Id, Answer>)
    requires i <= |w.steps|
    ensures var p := Resume(rules, habit, wid, w, i, skipped, answers);
            forall k :: 0 <= k < i ==> p.workflow.steps[k] == w.steps[k]
    decreases |w.steps| - i
  {
    if i < |w.steps| {
      var step := w.steps[i];
      match rules.dispatch(w.inputs, w.steps, i)
      case Raised(reason) =>
      case NoWork(reason) =>
        var next := SetStep(w, i, step.(status := Skipped, error := Some(reason)));
        ResumeKeeps(rules, habit, wid, next, i + 1, true, answers);
      case Send(request) =>
        if step.jobId in answers {
          var next := SetStep(w, i, Record(step, answers[step.jobId]));
          ResumeKeeps(rules, habit, wid, next, i + 1, false, answers);
        }
    }
  }

  /** The orchestrator's treatment of "nothing to do" agrees with the plain one exactly when
      the plain interpreter never skips two steps in a row. */
  lemma {:induction false} HabitsAgree(rules: Rules, wid: Id, w: Workflow, i: nat, skipped: bool,
                    answers: map<Id, Answer>)
    requires Upto(w.steps, i)
    requires skipped <==> i > 0 && w.steps[i - 1].status.Skipped?
    ensures var plain := Resume(rules, Plain, wid, w, i, skipped, answers);
            var engine := Resume(rules, Engine, wid, w, i, skipped, answers);
            plain == engine <==> !SkipsTwice(plain.workflow.steps, i)
    decreases |w.steps| - i, 1
  {
    if i < |w.steps| {
      match rules.dispatch(w.inputs, w.steps, i)
      case Raised(reason) =>
      case NoWork(reason) => HabitsAgreeOnSkip(rules, wid, w, i, skipped, reason, answers);
      case Send(request) =>
        if w.steps[i].jobId in answers && !Record(w.steps[i], answers[w.steps[i].jobId]).Fatal() {
          UptoNext(w.steps, i, Record(w.steps[i], answers[w.steps[i].jobId]));
          HabitsAgree(rules, wid, SetStep(w, i, Record(w.steps[i], answers[w.steps[i].jobId])), i + 1, false, answers);
          AnsweredAlike(rules, wid, w, i, skipped, request, answers);
        }
    }
  }

  lemma {:induction false} HabitsAgreeOnSkip(rules: Rules, wid: Id, w: Workflow, i: nat, skipped: bool, reason: string,
                          answers: map<Id, Answer>)
    requires Upto(w.steps, i) && i < |w.steps|
    requires skipped <==> i > 0 && w.steps[i - 1].status.Skipped?
    requires rules.dispatch(w.inputs, w.steps, i) == NoWork(reason)
    ensures var plain := Resume(rules, Plain, wid, w, i, skipped, answers);
            var engine := Resume(rules, Engine, wid, w, i, skipped, answers);
            plain == engine <==> !SkipsTwice(plain.workflow.steps, i)
    decreases |w.steps| - i, 0
  {
    if skipped {
      FirstOfTwo(rules, wid, w, i, reason, answers);
    } else {
      var s := w.steps[i].(status := Skipped, error := Some(reason));
      var next := SetStep(w, i, s);
      UptoNext(w.steps, i, s);
      HabitsAgree(rules, wid, next, i + 1, true, answers);
      ResumeKeeps(rules, Plain, wid, next, i + 1, true, answers);
      var plain := Resume(rules, Plain, wid, next, i + 1, true, answers);
      assert i > 0 ==> plain.workflow.steps[i - 1] == w.steps[i - 1];
      SkipsLater(plain.workflow.steps, i);
    }
  }

  lemma UptoNext(steps: seq<Step>, i: nat, s: Step)
    requires Upto(steps, i) && i < |steps| && s.Settled() && !s.Fatal()
    ensures Upto(steps[i := s], i + 1)
  {
  }

  /** An answered step makes no difference between the habits. */
  lemma AnsweredAlike(rules: Rules, wid: Id, w: Workflow, i: nat, skipped: bool, request: Request,
                      answers: map<Id, Answer>)
    requires i < |w.steps| && w.steps[i].jobId in answers
    requires rules.dispatch(w.inputs, w.steps, i) == Send(request)
    requires !Record(w.steps[i], answers[w.steps[i].jobId]).Fatal()
    ensures var next := SetStep(w, i, Record(w.steps[i], answers[w.steps[i].jobId]));
            var plain := Resume(rules, Plain, wid, w, i, skipped, answers);
            var engine := Resume(rules, Engine, wid, w, i, skipped, answers);
            var plain' := Resume(rules, Plain, wid, next, i + 1, false, answers);
            var engine' := Resume(rules, Engine, wid, next, i + 1, false, answers);
            && (plain == engine <==> plain' == engine')
            && (SkipsTwice(plain.workflow.steps, i) <==> SkipsTwice(plain'.workflow.steps, i + 1))
  {
    var next := SetStep(w, i, Record(w.steps[i], answers[w.steps[i].jobId]));
    var plain' := Resume(rules, Plain, wid, next, i + 1, false, answers);
    After_Injective([Requested(wid, w.steps[i].jobId, request)], plain',
                    Resume(rules, Engine, wid, next, i + 1, false, answers));
    ResumeKeeps(rules, Plain, wid, next, i + 1, false, answers);
    assert plain'.workflow.steps[i] == next.steps[i];
    SkipsLater(plain'.workflow.steps, i);
  }

  /** Where the habits part: the engine gives up on the second of two skips and leaves it pending. */
  lemma FirstOfTwo(rules: Rules, wid: Id, w: Workflow, i: nat, reason: string, answers: map<Id, Answer>)
    requires Upto(w.steps, i) && 0 < i < |w.steps| && w.steps[i - 1].status.Skipped?
    requires rules.dispatch(w.inputs, w.steps, i) == NoWork(reason)
    ensures var plain := Resume(rules, Plain, wid, w, i, true, answers);
            && plain != Resume(rules, Engine, wid, w, i, true, answers)
            && SkipsTwice(plain.workflow.steps, i)
  {
    var next := SetStep(w, i, w.steps[i].(status := Skipped, error := Some(reason)));
    ResumeKeeps(rules, Plain, wid, next, i + 1, true, answers);
    var steps := Resume(rules, Plain, wid, w, i, true, answers).workflow.steps;
    assert steps[i] == next.steps[i] && steps[i - 1] == next.steps[i - 1];
    assert Resume(rules, Engine, wid, w, i, true, answers).workflow.steps == w.steps;
  }

  lemma SkipsLater(steps: seq<Step>, i: nat)
    requires i < |steps| && !(i > 0 && steps[i - 1].status.Skipped? && steps[i].status.Skipped?)
    ensures SkipsTwice(steps, i) <==> SkipsTwice(steps, i + 1)
  {
  }

  lemma After_Injective(events: seq<Event>, a: Progress, b: Progress)
    ensures After(events, a) == After(events, b) <==> a == b
  {
    if events + a.events == events + b.events {
      assert a.events == (events + a.events)[|events|..];
      assert b.events == (events + b.events)[|events|..];
    }
  }

  /** With an answer for every job, the run ends in a terminal status. */
  lemma {:induction false} RunTerminates(rules: Rules, habit: Habit, wid: Id, w: Workflow, i: nat, skipped: bool,
                      answers: map<Id, Answer>)
    requires i <= |w.steps|
    requires forall k :: i <= k < |w.steps| ==> w.steps[k].jobId in answers
    ensures Resume(rules, habit, wid, w, i, skipped, answers).workflow.Terminal()
    decreases |w.steps| - i
  {
    if i < |w.steps| {
      var step := w.steps[i];
      match rules.dispatch(w.inputs, w.steps, i)
      case Raised(reason) =>
      case NoWork(reason) =>
        var next := SetStep(w, i, step.(status := Skipped, error := Some(reason)));
        RunTerminates(rules, habit, wid, next, i + 1, true, answers);
      case Send(request) =>
        var next := SetStep(w, i, Record(step, answers[step.jobId]));
        RunTerminates(rules, habit, wid, next, i + 1, false, answers);
    }
  }
}
