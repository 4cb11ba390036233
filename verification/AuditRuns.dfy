/** What follows for runs of the audit plan: which steps are skipped, when the orchestrator's
    treatment of "nothing to do" is the plain one, and when the end of an audit is announced.

    A completion is matched by its job id alone, so a job may be answered by an event of another
    type than the one that reports its step. Nothing here assumes otherwise unless it says so.
  */
module AuditRuns {
  import opened Options
  import opened Workflows
  import opened Interpreter
  import opened RowInvariant
  import opened Protocol
  import opened Orchestration
  import opened SiteAudit

  // ---- what is skipped

  predicate Skippable(kind: Kind) {
    kind.SerpCheck? || kind.CompetitorCheck?
  }

  /** The crawl id in the answer to the site's own crawl, if there is any. */
  function OwnCrawl(plan: seq<Step>, answers: map<Id, Answer>): Id
    requires |plan| >= 2
  {
    if plan[0].jobId in answers then IdIn(answers[plan[0].jobId].result.crawlId) else ""
  }

  /** The research id in the answer to the keyword research, if there is any. */
  function OwnResearch(plan: seq<Step>, answers: map<Id, Answer>): Id
    requires |plan| >= 2
  {
    if plan[1].jobId in answers then IdIn(answers[plan[1].jobId].result.researchId) else ""
  }

  /** What later steps find of the first two. */
  datatype Ids = Ids(crawl: Id, research: Id)

  function OwnIds(plan: seq<Step>, answers: map<Id, Answer>): Ids
    requires |plan| >= 2
  {
    Ids(OwnCrawl(plan, answers), OwnResearch(plan, answers))
  }

  /** A step of this kind has nothing to act on for lack of an id. */
  predicate Starved(kind: Kind, ids: Ids) {
    || ((kind.LinkAnalysis? || kind.ContentAnalysis? || kind.OptimizerPlan?) && ids.crawl == "")
    || (kind.ContentAnalysis? && ids.research == "")
  }

  /** Settled up to `i` with the answers that came, untouched from there on. */
  predicate Filled(steps: seq<Step>, rivals: nat, i: nat, ids: Ids) {
    && AuditSteps(steps, rivals) && Upto(steps, i)
    && (i >= 1 ==> steps[0].result.Some? && CrawlIdOf(steps[0].result) == ids.crawl)
    && (i >= 2 ==> steps[1].result.Some? && ResearchIdOf(steps[1].result) == ids.research)
  }

  /** A starved step has nothing to do, and otherwise only the rank check and the comparison can
      have nothing to do. */
  lemma NoWorkMeans(lib: Library, inputs: Inputs, steps: seq<Step>, rivals: nat, i: nat, ids: Ids)
    requires Filled(steps, rivals, i, ids) && i < |steps|
    ensures Starved(steps[i].kind, ids) ==> DispatchEvent(lib, inputs, steps, i).NoWork?
    ensures DispatchEvent(lib, inputs, steps, i).NoWork? ==> Skippable(steps[i].kind) || Starved(steps[i].kind, ids)
  {
    if i >= 2 {
      OwnResults(steps, rivals, i, ids);
    }
  }

  lemma OwnResults(steps: seq<Step>, rivals: nat, i: nat, ids: Ids)
    requires Filled(steps, rivals, i, ids) && i >= 2
    ensures CrawlIdOf(FirstResult(steps, Crawl)) == ids.crawl
    ensures ResearchIdOf(FirstResult(steps, KeywordResearch)) == ids.research
  {
    assert FirstResult(steps, Crawl) == steps[0].result;
    assert FirstResult(steps, KeywordResearch) == FirstResult(steps[1..], KeywordResearch);
    assert FirstResult(steps[1..], KeywordResearch) == steps[1].result;
  }

  predicate TellsAt(rules: Rules, inputs: Inputs, steps: seq<Step>, i: nat, ids: Ids)
    requires i < |steps|
  {
    && (Starved(steps[i].kind, ids) ==> rules.dispatch(inputs, steps, i).NoWork?)
    && (rules.dispatch(inputs, steps, i).NoWork? ==> Skippable(steps[i].kind) || Starved(steps[i].kind, ids))
  }

  /** All that matters about dispatching here: which steps have nothing to do. */
  ghost predicate Tells(rules: Rules, inputs: Inputs, rivals: nat, ids: Ids) {
    forall steps: seq<Step>, i: nat :: Filled(steps, rivals, i, ids) && i < |steps| ==>
      TellsAt(rules, inputs, steps, i, ids)
  }

  lemma AuditTells(lib: Library, inputs: Inputs, rivals: nat, ids: Ids)
    ensures Tells(AuditRules(lib), inputs, rivals, ids)
  {
    forall steps: seq<Step>, i: nat | Filled(steps, rivals, i, ids) && i < |steps|
      ensures TellsAt(AuditRules(lib), inputs, steps, i, ids)
    {
      NoWorkMeans(lib, inputs, steps, rivals, i, ids);
    }
  }

  lemma FilledBySkip(rules: Rules, inputs: Inputs, steps: seq<Step>, rivals: nat, i: nat, ids: Ids, reason: string)
    requires Filled(steps, rivals, i, ids) && i < |steps|
    requires TellsAt(rules, inputs, steps, i, ids) && rules.dispatch(inputs, steps, i).NoWork?
    ensures Filled(steps[i := steps[i].(status := Skipped, error := Some(reason))], rivals, i + 1, ids)
  {
    UptoNext(steps, i, steps[i].(status := Skipped, error := Some(reason)));
  }

  lemma FilledByAnswer(steps: seq<Step>, rivals: nat, i: nat, answers: map<Id, Answer>)
    requires |steps| >= 2 && Filled(steps, rivals, i, OwnIds(steps, answers)) && i < |steps|
    requires steps[i].jobId in answers && !Record(steps[i], answers[steps[i].jobId]).Fatal()
    ensures var next := steps[i := Record(steps[i], answers[steps[i].jobId])];
            OwnIds(next, answers) == OwnIds(steps, answers) && Filled(next, rivals, i + 1, OwnIds(steps, answers))
  {
    UptoNext(steps, i, Record(steps[i], answers[steps[i].jobId]));
  }

  /** How the steps of an audit stand with respect to skipping: skipped only if they may be, not
      done if starved, and in order. */
  predicate AsTold(steps: seq<Step>, rivals: nat, ids: Ids) {
    && |steps| == PlanLength(rivals) && Shape(steps)
    && forall k :: 0 <= k < |steps| ==>
         && steps[k].kind == KindAt(rivals, k)
         && (steps[k].status.Skipped? ==> Skippable(steps[k].kind) || Starved(steps[k].kind, ids))
         && (Starved(steps[k].kind, ids) ==> steps[k].status.Pending? || steps[k].status.Skipped?)
  }

  /** Whatever the answers are, an audit's steps are skipped as told. */
  lemma {:induction false} SkipsAsTold(rules: Rules, habit: Habit, wid: Id, w: Workflow, rivals: nat, i: nat,
                                       skipped: bool, answers: map<Id, Answer>)
    requires Begun(rules, w, rivals, i, answers)
    ensures AsTold(Resume(rules, habit, wid, w, i, skipped, answers).workflow.steps, rivals, OwnIds(w.steps, answers))
    decreases |w.steps| - i, 1
  {
    if i < |w.steps| {
      match rules.dispatch(w.inputs, w.steps, i)
      case Raised(reason) =>
      case NoWork(reason) => SkippedAsTold(rules, habit, wid, w, rivals, i, skipped, answers, reason);
      case Send(request) =>
        assert TellsAt(rules, w.inputs, w.steps, i, OwnIds(w.steps, answers));
        if w.steps[i].jobId in answers {
          AnsweredAsTold(rules, habit, wid, w, rivals, i, skipped, answers);
        } else {
          ToldNext(w.steps, rivals, i, w.steps[i].(status := Dispatched), OwnIds(w.steps, answers));
        }
    }
  }

  /** An audit settled up to `i`, with what matters about dispatching. */
  ghost predicate Begun(rules: Rules, w: Workflow, rivals: nat, i: nat, answers: map<Id, Answer>) {
    && |w.steps| >= 2 && Filled(w.steps, rivals, i, OwnIds(w.steps, answers))
    && AsTold(w.steps, rivals, OwnIds(w.steps, answers)) && Tells(rules, w.inputs, rivals, OwnIds(w.steps, answers))
  }

  lemma SkipGoesOn(rules: Rules, w: Workflow, rivals: nat, i: nat, answers: map<Id, Answer>, reason: string)
    requires Begun(rules, w, rivals, i, answers) && i < |w.steps|
    requires rules.dispatch(w.inputs, w.steps, i) == NoWork(reason)
    ensures var next := SetStep(w, i, w.steps[i].(status := Skipped, error := Some(reason)));
            Begun(rules, next, rivals, i + 1, answers) && OwnIds(next.steps, answers) == OwnIds(w.steps, answers)
  {
    var ids := OwnIds(w.steps, answers);
    assert TellsAt(rules, w.inputs, w.steps, i, ids);
    FilledBySkip(rules, w.inputs, w.steps, rivals, i, ids, reason);
    ToldNext(w.steps, rivals, i, w.steps[i].(status := Skipped, error := Some(reason)), ids);
  }

  lemma AnswerGoesOn(rules: Rules, w: Workflow, rivals: nat, i: nat, answers: map<Id, Answer>)
    requires Begun(rules, w, rivals, i, answers) && i < |w.steps| && w.steps[i].jobId in answers
    requires rules.dispatch(w.inputs, w.steps, i).Send?
    ensures var next := SetStep(w, i, Record(w.steps[i], answers[w.steps[i].jobId]));
            && OwnIds(next.steps, answers) == OwnIds(w.steps, answers)
            && AsTold(next.steps, rivals, OwnIds(w.steps, answers))
            && (!next.steps[i].Fatal() ==> Begun(rules, next, rivals, i + 1, answers))
  {
    var s := Record(w.steps[i], answers[w.steps[i].jobId]);
    assert TellsAt(rules, w.inputs, w.steps, i, OwnIds(w.steps, answers));
    ToldNext(w.steps, rivals, i, s, OwnIds(w.steps, answers));
    if !s.Fatal() {
      FilledByAnswer(w.steps, rivals, i, answers);
    }
  }

  lemma {:induction false} SkippedAsTold(rules: Rules, habit: Habit, wid: Id, w: Workflow, rivals: nat, i: nat,
                                         skipped: bool, answers: map<Id, Answer>, reason: string)
    requires Begun(rules, w, rivals, i, answers) && i < |w.steps|
    requires rules.dispatch(w.inputs, w.steps, i) == NoWork(reason)
    ensures AsTold(Resume(rules, habit, wid, w, i, skipped, answers).workflow.steps, rivals, OwnIds(w.steps, answers))
    decreases |w.steps| - i, 0
  {
    SkipGoesOn(rules, w, rivals, i, answers, reason);
    ResumesSkipped(rules, habit, wid, w, i, skipped, answers, reason);
    var next := SetStep(w, i, w.steps[i].(status := Skipped, error := Some(reason)));
    SkipsAsTold(rules, habit, wid, next, rivals, i + 1, true, answers);
  }

  lemma {:induction false} AnsweredAsTold(rules: Rules, habit: Habit, wid: Id, w: Workflow, rivals: nat, i: nat,
                                          skipped: bool, answers: map<Id, Answer>)
    requires Begun(rules, w, rivals, i, answers) && i < |w.steps| && w.steps[i].jobId in answers
    requires rules.dispatch(w.inputs, w.steps, i).Send?
    ensures AsTold(Resume(rules, habit, wid, w, i, skipped, answers).workflow.steps, rivals, OwnIds(w.steps, answers))
    decreases |w.steps| - i, 0
  {
    var next := SetStep(w, i, Record(w.steps[i], answers[w.steps[i].jobId]));
    AnswerGoesOn(rules, w, rivals, i, answers);
    ResumesAnswered(rules, habit, wid, w, i, skipped, answers);
    if !next.steps[i].Fatal() {
      SkipsAsTold(rules, habit, wid, next, rivals, i + 1, false, answers);
    }
  }

  lemma ToldNext(steps: seq<Step>, rivals: nat, i: nat, s: Step, ids: Ids)
    requires AsTold(steps, rivals, ids) && Upto(steps, i) && i < |steps| && s.kind == steps[i].kind
    requires s.status.Skipped? ==> Skippable(s.kind) || Starved(s.kind, ids)
    requires Starved(s.kind, ids) ==> s.status.Skipped?
    ensures AsTold(steps[i := s], rivals, ids)
  {
  }

  lemma ResumesSkipped(rules: Rules, habit: Habit, wid: Id, w: Workflow, i: nat, skipped: bool,
                       answers: map<Id, Answer>, reason: string)
    requires i < |w.steps| && rules.dispatch(w.inputs, w.steps, i) == NoWork(reason)
    ensures var next := SetStep(w, i, w.steps[i].(status := Skipped, error := Some(reason)));
            var steps := Resume(rules, habit, wid, w, i, skipped, answers).workflow.steps;
            var rest := Resume(rules, habit, wid, next, i + 1, true, answers).workflow.steps;
            if habit.Engine? && skipped then steps == w.steps else steps == rest
  {
  }

  lemma ResumesAnswered(rules: Rules, habit: Habit, wid: Id, w: Workflow, i: nat, skipped: bool,
                        answers: map<Id, Answer>)
    requires i < |w.steps| && rules.dispatch(w.inputs, w.steps, i).Send? && w.steps[i].jobId in answers
    ensures var next := SetStep(w, i, Record(w.steps[i], answers[w.steps[i].jobId]));
            Resume(rules, habit, wid, w, i, skipped, answers).workflow.steps ==
            if next.steps[i].Fatal() then next.steps
            else Resume(rules, habit, wid, next, i + 1, false, answers).workflow.steps
  {
  }

  /** For every audit, every answer to its jobs and either habit: crawls and the research are never
      skipped; of the steps that were settled, the link analysis and the rewrite plan were skipped
      exactly if the crawl's answer has no crawl id, and the content analysis exactly if that or
      the research id is missing. */
  lemma SkipsExactly(lib: Library, habit: Habit, wid: Id, inputs: Inputs, plan: seq<Step>, rivals: nat,
                     answers: map<Id, Answer>)
    requires AuditSteps(plan, rivals) && Plan(plan) == plan
    ensures var steps := Run(AuditRules(lib), habit, wid, inputs, plan, answers).workflow.steps;
            && |steps| == |plan|
            && forall k :: 0 <= k < |steps| && steps[k].Settled() ==>
                 match plan[k].kind
                 case SerpCheck => true
                 case CompetitorCheck => true
                 case LinkAnalysis => steps[k].status.Skipped? <==> OwnCrawl(plan, answers) == ""
                 case OptimizerPlan => steps[k].status.Skipped? <==> OwnCrawl(plan, answers) == ""
                 case ContentAnalysis =>
                   steps[k].status.Skipped? <==> OwnCrawl(plan, answers) == "" || OwnResearch(plan, answers) == ""
                 case _ => !steps[k].status.Skipped?
  {
    AuditTells(lib, inputs, rivals, OwnIds(plan, answers));
    Untouched(plan, rivals, OwnIds(plan, answers));
    SkipsAsTold(AuditRules(lib), habit, wid, Workflow(inputs, Running, None, plan), rivals, 0, false, answers);
  }

  lemma Untouched(plan: seq<Step>, rivals: nat, ids: Ids)
    requires AuditSteps(plan, rivals) && Plan(plan) == plan
    ensures Filled(plan, rivals, 0, ids) && AsTold(plan, rivals, ids)
  {
    assert forall k :: 0 <= k < |plan| ==> plan[k] == Plan(plan)[k];
  }

  // ---- how far an audit gets

  /** Going through the steps in order, skipping those with nothing to do, step `n` is reached:
      none before it is refused, unanswered or fatal. */
  predicate Reaches(rules: Rules, inputs: Inputs, steps: seq<Step>, answers: map<Id, Answer>, i: nat, n: nat)
    requires i <= n <= |steps|
    decreases n - i
  {
    i == n ||
    match rules.dispatch(inputs, steps, i)
    case Raised(_) => false
    case NoWork(reason) =>
      Reaches(rules, inputs, steps[i := steps[i].(status := Skipped, error := Some(reason))], answers, i + 1, n)
    case Send(_) =>
      && steps[i].jobId in answers
      && var s := Record(steps[i], answers[steps[i].jobId]);
      && !s.Fatal() && Reaches(rules, inputs, steps[i := s], answers, i + 1, n)
  }

  /** A starved step is skipped by the plain interpreter exactly if it is reached. */
  lemma {:induction false} StarvedIff(rules: Rules, wid: Id, w: Workflow, rivals: nat, i: nat, n: nat, skipped: bool,
                                      answers: map<Id, Answer>)
    requires Begun(rules, w, rivals, i, answers) && i <= n < |w.steps| && 3 <= n <= 5
    ensures Resume(rules, Plain, wid, w, i, skipped, answers).workflow.steps[n].status.Skipped?
            <==> Reaches(rules, w.inputs, w.steps, answers, i, n) && Starved(w.steps[n].kind, OwnIds(w.steps, answers))
    decreases n - i, 1
  {
    assert TellsAt(rules, w.inputs, w.steps, i, OwnIds(w.steps, answers));
    match rules.dispatch(w.inputs, w.steps, i)
    case Raised(reason) =>
    case NoWork(reason) => StarvedIffSkipped(rules, wid, w, rivals, i, n, skipped, answers, reason);
    case Send(request) =>
      if w.steps[i].jobId in answers {
        StarvedIffAnswered(rules, wid, w, rivals, i, n, skipped, answers);
      }
  }

  lemma {:induction false} StarvedIffSkipped(rules: Rules, wid: Id, w: Workflow, rivals: nat, i: nat, n: nat,
                                             skipped: bool, answers: map<Id, Answer>, reason: string)
    requires Begun(rules, w, rivals, i, answers) && i <= n < |w.steps| && 3 <= n <= 5
    requires rules.dispatch(w.inputs, w.steps, i) == NoWork(reason)
    ensures Resume(rules, Plain, wid, w, i, skipped, answers).workflow.steps[n].status.Skipped?
            <==> Reaches(rules, w.inputs, w.steps, answers, i, n) && Starved(w.steps[n].kind, OwnIds(w.steps, answers))
    decreases n - i, 0
  {
    var next := SetStep(w, i, w.steps[i].(status := Skipped, error := Some(reason)));
    ResumesSkipped(rules, Plain, wid, w, i, skipped, answers, reason);
    if i < n {
      SkipGoesOn(rules, w, rivals, i, answers, reason);
      StarvedIff(rules, wid, next, rivals, i + 1, n, true, answers);
    } else {
      assert TellsAt(rules, w.inputs, w.steps, i, OwnIds(w.steps, answers));
      ResumeKeeps(rules, Plain, wid, next, i + 1, true, answers);
    }
  }

  lemma {:induction false} StarvedIffAnswered(rules: Rules, wid: Id, w: Workflow, rivals: nat, i: nat, n: nat,
                                              skipped: bool, answers: map<Id, Answer>)
    requires Begun(rules, w, rivals, i, answers) && i <= n < |w.steps| && 3 <= n <= 5
    requires w.steps[i].jobId in answers && rules.dispatch(w.inputs, w.steps, i).Send?
    ensures Resume(rules, Plain, wid, w, i, skipped, answers).workflow.steps[n].status.Skipped?
            <==> Reaches(rules, w.inputs, w.steps, answers, i, n) && Starved(w.steps[n].kind, OwnIds(w.steps, answers))
    decreases n - i, 0
  {
    var next := SetStep(w, i, Record(w.steps[i], answers[w.steps[i].jobId]));
    assert TellsAt(rules, w.inputs, w.steps, i, OwnIds(w.steps, answers));
    ResumesAnswered(rules, Plain, wid, w, i, skipped, answers);
    if !next.steps[i].Fatal() {
      if i < n {
        AnswerGoesOn(rules, w, rivals, i, answers);
        StarvedIff(rules, wid, next, rivals, i + 1, n, false, answers);
      } else {
        ResumeKeeps(rules, Plain, wid, next, i + 1, false, answers);
      }
    }
  }

  /** Without a crawl id, reaching the link analysis means getting past it. */
  lemma {:induction false} ReachesContent(rules: Rules, inputs: Inputs, steps: seq<Step>, rivals: nat,
                                          answers: map<Id, Answer>, i: nat)
    requires |steps| >= 6 && Filled(steps, rivals, i, OwnIds(steps, answers)) && i <= 3
    requires Reaches(rules, inputs, steps, answers, i, 3) && OwnCrawl(steps, answers) == ""
    requires Tells(rules, inputs, rivals, OwnIds(steps, answers))
    ensures Reaches(rules, inputs, steps, answers, i, 4)
    decreases 3 - i
  {
    var ids := OwnIds(steps, answers);
    assert TellsAt(rules, inputs, steps, i, ids);
    match rules.dispatch(inputs, steps, i)
    case Raised(_) =>
    case NoWork(reason) =>
      var next := steps[i := steps[i].(status := Skipped, error := Some(reason))];
      if i < 3 {
        FilledBySkip(rules, inputs, steps, rivals, i, ids, reason);
        ReachesContent(rules, inputs, next, rivals, answers, i + 1);
      }
    case Send(_) =>
      if i < 3 {
        FilledByAnswer(steps, rivals, i, answers);
        ReachesContent(rules, inputs, steps[i := Record(steps[i], answers[steps[i].jobId])], rivals, answers, i + 1);
      }
  }

  /** The link analysis is reached, and the crawl's answer has no crawl id for it. */
  predicate LinksStarve(rules: Rules, inputs: Inputs, plan: seq<Step>, answers: map<Id, Answer>)
    requires |plan| >= 6
  {
    Reaches(rules, inputs, plan, answers, 0, 3) && OwnCrawl(plan, answers) == ""
  }

  /** The content analysis is reached, and the research's answer has no research id for it. */
  predicate ContentStarves(rules: Rules, inputs: Inputs, plan: seq<Step>, answers: map<Id, Answer>)
    requires |plan| >= 6
  {
    Reaches(rules, inputs, plan, answers, 0, 4) && OwnResearch(plan, answers) == ""
  }

  /** Two steps in a row are skipped exactly if the link analysis is. */
  lemma TwiceMeansLinks(steps: seq<Step>, rivals: nat, ids: Ids)
    requires AsTold(steps, rivals, ids)
    requires steps[3].status.Skipped? ==> steps[4].status.Skipped?
    ensures SkipsTwice(steps, 0) <==> steps[3].status.Skipped?
  {
    if SkipsTwice(steps, 0) {
      var k :| 0 < k < |steps| && steps[k - 1].status.Skipped? && steps[k].status.Skipped?;
      assert 3 <= k <= 5;
      assert k == 5 ==> steps[3].Settled();
    }
  }

  lemma LinksThenContent(rules: Rules, wid: Id, inputs: Inputs, plan: seq<Step>, rivals: nat, answers: map<Id, Answer>)
    requires AuditSteps(plan, rivals) && Plan(plan) == plan
    requires Tells(rules, inputs, rivals, OwnIds(plan, answers))
    ensures var steps := Run(rules, Plain, wid, inputs, plan, answers).workflow.steps;
            && |steps| == |plan| && AsTold(steps, rivals, OwnIds(plan, answers))
            && (steps[3].status.Skipped? <==> LinksStarve(rules, inputs, plan, answers))
            && (steps[4].status.Skipped? <==>
                  LinksStarve(rules, inputs, plan, answers) || ContentStarves(rules, inputs, plan, answers))
            && (steps[3].status.Skipped? ==> steps[4].status.Skipped?)
  {
    var w := Workflow(inputs, Running, None, plan);
    Untouched(plan, rivals, OwnIds(plan, answers));
    SkipsAsTold(rules, Plain, wid, w, rivals, 0, false, answers);
    StarvedIff(rules, wid, w, rivals, 0, 3, false, answers);
    StarvedIff(rules, wid, w, rivals, 0, 4, false, answers);
    if LinksStarve(rules, inputs, plan, answers) {
      ReachesContent(rules, inputs, plan, rivals, answers, 0);
    }
    ReachesLess(rules, inputs, plan, answers, 0, 3);
  }

  lemma {:induction false} ReachesLess(rules: Rules, inputs: Inputs, steps: seq<Step>, answers: map<Id, Answer>,
                                       i: nat, n: nat)
    requires i <= n < |steps|
    ensures Reaches(rules, inputs, steps, answers, i, n + 1) ==> Reaches(rules, inputs, steps, answers, i, n)
    decreases n - i
  {
    if i < n {
      match rules.dispatch(inputs, steps, i)
      case Raised(_) =>
      case NoWork(reason) =>
        ReachesLess(rules, inputs, steps[i := steps[i].(status := Skipped, error := Some(reason))], answers, i + 1, n);
      case Send(_) =>
        if steps[i].jobId in answers {
          ReachesLess(rules, inputs, steps[i := Record(steps[i], answers[steps[i].jobId])], answers, i + 1, n);
        }
    }
  }

  /** For every audit and every answer to its jobs, the orchestrator's handling of "nothing to do"
      is the plain one if and only if the link analysis is not reached or the crawl was answered
      with a crawl id. */
  lemma AuditIsPlain(lib: Library, wid: Id, inputs: Inputs, plan: seq<Step>, rivals: nat, answers: map<Id, Answer>)
    requires AuditSteps(plan, rivals) && Plan(plan) == plan
    ensures Run(AuditRules(lib), Engine, wid, inputs, plan, answers)
            == Run(AuditRules(lib), Plain, wid, inputs, plan, answers)
            <==> !LinksStarve(AuditRules(lib), inputs, plan, answers)
  {
    AuditTells(lib, inputs, rivals, OwnIds(plan, answers));
    var w := Workflow(inputs, Running, None, plan);
    Untouched(plan, rivals, OwnIds(plan, answers));
    LinksThenContent(AuditRules(lib), wid, inputs, plan, rivals, answers);
    TwiceMeansLinks(Resume(AuditRules(lib), Plain, wid, w, 0, false, answers).workflow.steps, rivals,
                    OwnIds(plan, answers));
    HabitsAgree(AuditRules(lib), wid, w, 0, false, answers);
  }

  /** The plain interpreter skips nothing but rank check and comparison if and only if neither the
      link analysis nor the content analysis is reached without the id it needs. */
  lemma SkipsOnlySkippable(lib: Library, wid: Id, inputs: Inputs, plan: seq<Step>, rivals: nat,
                           answers: map<Id, Answer>)
    requires AuditSteps(plan, rivals) && Plan(plan) == plan
    ensures var steps := Run(AuditRules(lib), Plain, wid, inputs, plan, answers).workflow.steps;
            (forall k :: 0 <= k < |steps| && steps[k].status.Skipped? ==> Skippable(steps[k].kind)) <==>
              && !LinksStarve(AuditRules(lib), inputs, plan, answers)
              && !ContentStarves(AuditRules(lib), inputs, plan, answers)
  {
    AuditTells(lib, inputs, rivals, OwnIds(plan, answers));
    LinksThenContent(AuditRules(lib), wid, inputs, plan, rivals, answers);
    OnlyThree(Run(AuditRules(lib), Plain, wid, inputs, plan, answers).workflow.steps, rivals, OwnIds(plan, answers));
  }

  lemma OnlyThree(steps: seq<Step>, rivals: nat, ids: Ids)
    requires AsTold(steps, rivals, ids)
    ensures (forall k :: 0 <= k < |steps| && steps[k].status.Skipped? ==> Skippable(steps[k].kind))
            <==> !steps[3].status.Skipped? && !steps[4].status.Skipped?
  {
    if steps[5].status.Skipped? {
      assert steps[3].Settled();
    }
  }

  /** An audit whose jobs were answered by the events that report them is never starved. */
  lemma HonestIsFed(lib: Library, inputs: Inputs, plan: seq<Step>, rivals: nat, answers: map<Id, Answer>)
    requires AuditSteps(plan, rivals) && Plan(plan) == plan && Honest(plan, answers)
    ensures !LinksStarve(AuditRules(lib), inputs, plan, answers)
    ensures !ContentStarves(AuditRules(lib), inputs, plan, answers)
  {
    AuditTells(lib, inputs, rivals, OwnIds(plan, answers));
    Untouched(plan, rivals, OwnIds(plan, answers));
    ReachesLess(AuditRules(lib), inputs, plan, answers, 0, 3);
    if Reaches(AuditRules(lib), inputs, plan, answers, 0, 3) {
      FirstTwoAnswered(AuditRules(lib), inputs, plan, rivals, answers);
      var a :| HonestAnswer(plan[0], a, answers[plan[0].jobId]);
      var b :| HonestAnswer(plan[1], b, answers[plan[1].jobId]);
    }
  }

  lemma FirstTwoAnswered(rules: Rules, inputs: Inputs, plan: seq<Step>, rivals: nat, answers: map<Id, Answer>)
    requires |plan| >= 6 && Filled(plan, rivals, 0, OwnIds(plan, answers))
    requires Reaches(rules, inputs, plan, answers, 0, 3)
    requires Tells(rules, inputs, rivals, OwnIds(plan, answers))
    ensures plan[0].jobId in answers && plan[1].jobId in answers
  {
    assert TellsAt(rules, inputs, plan, 0, OwnIds(plan, answers));
    FilledByAnswer(plan, rivals, 0, answers);
    var next := plan[0 := Record(plan[0], answers[plan[0].jobId])];
    assert Reaches(rules, inputs, next, answers, 1, 3);
    assert TellsAt(rules, inputs, next, 1, OwnIds(plan, answers));
  }

  /** An input on which they differ. The crawl's job is reported by an event of another type, which
      `mark_step` accepts, so no crawl id is kept; and the research finds no keywords. The plain
      interpreter skips what it cannot do and finishes; the orchestrator fails the workflow. */
  lemma TwoInARow(lib: Library, wid: Id, inputs: Inputs, plan: seq<Step>, serp: Payload, research: Payload)
    requires AuditSteps(plan, 0) && Plan(plan) == plan && lib.strip(inputs.seed) != ""
    requires lib.requestAccepted(plan[0].jobId, CrawlParams(inputs, plan[0]))
    requires lib.requestAccepted(plan[1].jobId, ResearchRequest(lib.strip(inputs.seed), inputs.lang, inputs.country))
    requires JobIdOf(SerpChecked, serp) == plan[0].jobId && !serp.failed
    requires JobIdOf(KeywordResearched, research) == plan[1].jobId && !research.failed && research.topKeywords == []
    ensures var answers := map[plan[0].jobId := AnswerOf(SerpChecked, serp),
                               plan[1].jobId := AnswerOf(KeywordResearched, research)];
            && Run(AuditRules(lib), Engine, wid, inputs, plan, answers).workflow.status == Broke
            && Run(AuditRules(lib), Plain, wid, inputs, plan, answers).workflow.status == Succeeded
  {
    var answers := map[plan[0].jobId := AnswerOf(SerpChecked, serp),
                       plan[1].jobId := AnswerOf(KeywordResearched, research)];
    var w := Workflow(inputs, Running, None, plan);
    Untouched(plan, 0, OwnIds(plan, answers));
    var w1 := SetStep(w, 0, Record(plan[0], answers[plan[0].jobId]));
    FilledByAnswer(plan, 0, 0, answers);
    SendsCrawl(lib, inputs, plan);
    SendsOn(lib, Engine, wid, w, 0, answers);
    SendsOn(lib, Plain, wid, w, 0, answers);
    NoKeywords(lib, wid, w1, answers);
  }

  lemma SendsCrawl(lib: Library, inputs: Inputs, steps: seq<Step>)
    requires steps != [] && steps[0].kind.Crawl?
    requires lib.requestAccepted(steps[0].jobId, CrawlParams(inputs, steps[0]))
    ensures DispatchEvent(lib, inputs, steps, 0).Send?
  {
  }

  lemma SendsResearch(lib: Library, inputs: Inputs, steps: seq<Step>)
    requires |steps| > 1 && steps[1].kind.KeywordResearch? && lib.strip(inputs.seed) != ""
    requires lib.requestAccepted(steps[1].jobId, ResearchRequest(lib.strip(inputs.seed), inputs.lang, inputs.country))
    ensures DispatchEvent(lib, inputs, steps, 1).Send?
  {
  }

  lemma NoKeywords(lib: Library, wid: Id, w: Workflow, answers: map<Id, Answer>)
    requires |w.steps| >= 2 && Filled(w.steps, 0, 1, OwnIds(w.steps, answers)) && OwnCrawl(w.steps, answers) == ""
    requires lib.strip(w.inputs.seed) != ""
    requires lib.requestAccepted(w.steps[1].jobId,
                                 ResearchRequest(lib.strip(w.inputs.seed), w.inputs.lang, w.inputs.country))
    requires w.steps[1].jobId in answers && !answers[w.steps[1].jobId].failed
    requires answers[w.steps[1].jobId].result.topKeywords == []
    ensures Resume(AuditRules(lib), Engine, wid, w, 1, false, answers).workflow.status == Broke
    ensures Resume(AuditRules(lib), Plain, wid, w, 1, false, answers).workflow.status == Succeeded
  {
    var next := SetStep(w, 1, Record(w.steps[1], answers[w.steps[1].jobId]));
    FilledByAnswer(w.steps, 0, 1, answers);
    SendsResearch(lib, w.inputs, w.steps);
    SendsOn(lib, Engine, wid, w, 1, answers);
    SendsOn(lib, Plain, wid, w, 1, answers);
    NothingToTrack(lib, w.inputs, next.steps);
    NothingLeft(lib, wid, next, answers);
  }

  lemma NothingToTrack(lib: Library, inputs: Inputs, steps: seq<Step>)
    requires |steps| > 2 && steps[0].kind.Crawl? && steps[1].kind.KeywordResearch? && steps[2].kind.SerpCheck?
    requires steps[1].result.Some? && steps[1].result.value.topKeywords == []
    ensures DispatchEvent(lib, inputs, steps, 2).NoWork?
  {
    assert FirstResult(steps, KeywordResearch) == FirstResult(steps[1..], KeywordResearch);
    assert FirstResult(steps[1..], KeywordResearch) == steps[1].result;
  }

  lemma SendsOn(lib: Library, habit: Habit, wid: Id, w: Workflow, i: nat, answers: map<Id, Answer>)
    requires i < |w.steps| && DispatchEvent(lib, w.inputs, w.steps, i).Send?
    requires w.steps[i].jobId in answers && !Record(w.steps[i], answers[w.steps[i].jobId]).Fatal()
    ensures var next := SetStep(w, i, Record(w.steps[i], answers[w.steps[i].jobId]));
            Resume(AuditRules(lib), habit, wid, w, i, false, answers).workflow
              == Resume(AuditRules(lib), habit, wid, next, i + 1, false, answers).workflow
  {
    assert AuditRules(lib).dispatch(w.inputs, w.steps, i) == DispatchEvent(lib, w.inputs, w.steps, i);
  }

  /** With neither keywords nor a crawl id, nothing is left to do from the rank check on. */
  lemma NothingLeft(lib: Library, wid: Id, w: Workflow, answers: map<Id, Answer>)
    requires |w.steps| >= 2 && Filled(w.steps, 0, 2, OwnIds(w.steps, answers)) && OwnCrawl(w.steps, answers) == ""
    requires DispatchEvent(lib, w.inputs, w.steps, 2).NoWork?
    ensures Resume(AuditRules(lib), Engine, wid, w, 2, false, answers).workflow.status == Broke
    ensures Resume(AuditRules(lib), Plain, wid, w, 2, false, answers).workflow.status == Succeeded
  {
    var rules := AuditRules(lib);
    AuditTells(lib, w.inputs, 0, OwnIds(w.steps, answers));
    assert rules.dispatch(w.inputs, w.steps, 2) == DispatchEvent(lib, w.inputs, w.steps, 2);
    SkipsTheRest(rules, wid, w, answers);
  }

  lemma SkipsTheRest(rules: Rules, wid: Id, w: Workflow, answers: map<Id, Answer>)
    requires |w.steps| >= 2 && Filled(w.steps, 0, 2, OwnIds(w.steps, answers)) && OwnCrawl(w.steps, answers) == ""
    requires Tells(rules, w.inputs, 0, OwnIds(w.steps, answers)) && rules.dispatch(w.inputs, w.steps, 2).NoWork?
    ensures Resume(rules, Engine, wid, w, 2, false, answers).workflow.status == Broke
    ensures Resume(rules, Plain, wid, w, 2, false, answers).workflow.status == Succeeded
  {
    var ids := OwnIds(w.steps, answers);
    var reason := rules.dispatch(w.inputs, w.steps, 2).reason;
    var next := SetStep(w, 2, w.steps[2].(status := Skipped, error := Some(reason)));
    assert TellsAt(rules, w.inputs, w.steps, 2, ids);
    FilledBySkip(rules, w.inputs, w.steps, 0, 2, ids, reason);
    assert TellsAt(rules, w.inputs, next.steps, 3, ids);
    SkipsToTheEnd(rules, wid, next, 3, answers);
  }

  lemma {:induction false} SkipsToTheEnd(rules: Rules, wid: Id, w: Workflow, i: nat, answers: map<Id, Answer>)
    requires |w.steps| >= 2 && Filled(w.steps, 0, i, OwnIds(w.steps, answers)) && OwnCrawl(w.steps, answers) == ""
    requires Tells(rules, w.inputs, 0, OwnIds(w.steps, answers)) && 3 <= i
    ensures Resume(rules, Plain, wid, w, i, true, answers).workflow.status == Succeeded
    decreases |w.steps| - i
  {
    if i < |w.steps| {
      var ids := OwnIds(w.steps, answers);
      assert TellsAt(rules, w.inputs, w.steps, i, ids);
      var reason := rules.dispatch(w.inputs, w.steps, i).reason;
      FilledBySkip(rules, w.inputs, w.steps, 0, i, ids, reason);
      SkipsToTheEnd(rules, wid, SetStep(w, i, w.steps[i].(status := Skipped, error := Some(reason))), i + 1, answers);
    }
  }

  // ---- runs of the protocol

  /** A workflow created from an audit's plan is an audit for the rest of every run. */
  lemma AuditForLife(lib: Library, run: seq<System>, actions: seq<Action>, i: nat, j: nat, jobs: nat -> Id)
    requires IsRun(AuditRules(lib), run, actions) && i < j < |run| && actions[i].Create?
    requires forall m, n :: jobs(m) == jobs(n) ==> m == n
    requires forall m :: jobs(m) != ""
    requires MakePlan(lib, actions[i].inputs, jobs) == Some(actions[i].plan)
    ensures var wid := actions[i].wid;
            && wid in run[j].db.workflows
            && run[j].db.workflows[wid].inputs == actions[i].inputs
            && Plan(run[j].db.workflows[wid].steps) == actions[i].plan
            && AuditSteps(run[j].db.workflows[wid].steps, |Competitors(lib, actions[i].inputs)|)
  {
    var wid, plan := actions[i].wid, actions[i].plan;
    ActorFits(AuditRules(lib), run, actions, i);
    PlanShape(lib, actions[i].inputs, jobs);
    ForGood(AuditRules(lib), run, actions, i + 1, j, wid);
    PlansAgree(plan, run[j].db.workflows[wid].steps);
    SameShape(plan, run[j].db.workflows[wid].steps, |Competitors(lib, actions[i].inputs)|);
  }

  lemma SameShape(plan: seq<Step>, steps: seq<Step>, rivals: nat)
    requires AuditSteps(plan, rivals) && Plan(steps) == plan
    ensures AuditSteps(steps, rivals)
  {
    forall k | 0 <= k < |steps| ensures steps[k].kind == plan[k].kind && steps[k].jobId == plan[k].jobId {
    }
  }

  /** In every reachable state, crashes included, an audit that has finished or waits has gone
      where the plain interpreter goes, if and only if the link analysis is not starved. */
  lemma AuditRefinesPlain(lib: Library, run: seq<System>, actions: seq<Action>, i: nat, wid: Id, rivals: nat)
    requires IsRun(AuditRules(lib), run, actions) && i < |run|
    requires wid in run[i].db.workflows && Steady(run[i].db.workflows[wid])
    requires AuditSteps(run[i].db.workflows[wid].steps, rivals)
    ensures wid in run[i].answers
    ensures var w := run[i].db.workflows[wid];
            Progress(w, Staged(run[i].db.outbox, wid))
              == Run(AuditRules(lib), Plain, wid, w.inputs, Plan(w.steps), run[i].answers[wid])
            <==> !LinksStarve(AuditRules(lib), w.inputs, Plan(w.steps), run[i].answers[wid])
  {
    var w := run[i].db.workflows[wid];
    RefinesInterpreter(AuditRules(lib), run, actions, i, wid);
    PlanAgain(w.steps, rivals);
    AuditIsPlain(lib, wid, w.inputs, Plan(w.steps), rivals, run[i].answers[wid]);
  }

  lemma PlanAgain(steps: seq<Step>, rivals: nat)
    requires AuditSteps(steps, rivals)
    ensures AuditSteps(Plan(steps), rivals) && Plan(Plan(steps)) == Plan(steps)
  {
  }

  // ---- what is announced

  /** The events end with an announcement exactly if the workflow has finished and the
      announcement satisfies its contract. */
  predicate Announced(rules: Rules, wid: Id, p: Progress) {
    var w := p.workflow;
    Notices(p.events) ==
      if w.Terminal() && rules.publishable(Finished(wid, w.status, w.error, Reports(w.steps))) then 1 else 0
  }

  lemma RequestFirst(rules: Rules, wid: Id, jobId: Id, request: Request, p: Progress)
    requires Announced(rules, wid, p)
    ensures Announced(rules, wid, After([Requested(wid, jobId, request)], p))
  {
    JobsConcat([Requested(wid, jobId, request)], p.events);
  }

  lemma FinishAnnounces(rules: Rules, wid: Id, w: Workflow, status: Status, error: Option<Failure>)
    requires status.Succeeded? || status.Broke?
    ensures Announced(rules, wid, Finish(rules, wid, w, w, status, error))
  {
  }

  lemma {:induction false} RunAnnounces(rules: Rules, habit: Habit, wid: Id, w: Workflow, i: nat, skipped: bool,
                                        answers: map<Id, Answer>)
    requires i <= |w.steps| && w.status.Running?
    ensures Announced(rules, wid, Resume(rules, habit, wid, w, i, skipped, answers))
    decreases |w.steps| - i, 1
  {
    if i == |w.steps| {
      FinishAnnounces(rules, wid, w, Succeeded, None);
    } else {
      match rules.dispatch(w.inputs, w.steps, i)
      case Raised(reason) =>
        FinishAnnounces(rules, wid, w, Broke, Some(CannotDispatch(reason)));
      case NoWork(reason) =>
        FinishAnnounces(rules, wid, w, Broke, Some(CannotDispatch(reason)));
        var next := SetStep(w, i, w.steps[i].(status := Skipped, error := Some(reason)));
        RunAnnounces(rules, habit, wid, next, i + 1, true, answers);
      case Send(request) =>
        RequestAnnounces(rules, habit, wid, w, i, skipped, request, answers);
    }
  }

  lemma {:induction false} RequestAnnounces(rules: Rules, habit: Habit, wid: Id, w: Workflow, i: nat, skipped: bool,
                         request: Request, answers: map<Id, Answer>)
    requires i < |w.steps| && w.status.Running? && rules.dispatch(w.inputs, w.steps, i) == Send(request)
    ensures Announced(rules, wid, Resume(rules, habit, wid, w, i, skipped, answers))
    decreases |w.steps| - i, 0
  {
    var step := w.steps[i];
    if step.jobId in answers {
      var next := SetStep(w, i, Record(step, answers[step.jobId]));
      if next.steps[i].Fatal() {
        var end := Finish(rules, wid, next, next, Broke, Some(Blame(next.steps, i)));
        FinishAnnounces(rules, wid, next, Broke, Some(Blame(next.steps, i)));
        RequestFirst(rules, wid, step.jobId, request, end);
      } else {
        var rest := Resume(rules, habit, wid, next, i + 1, false, answers);
        RunAnnounces(rules, habit, wid, next, i + 1, false, answers);
        RequestFirst(rules, wid, step.jobId, request, rest);
      }
    }
  }

  /** A finished audit has announced its end if and only if it had no competitors and the rest of
      the announcement satisfies its contract. */
  lemma AnnouncedIff(lib: Library, run: seq<System>, actions: seq<Action>, i: nat, wid: Id, rivals: nat)
    requires IsRun(AuditRules(lib), run, actions) && i < |run| && wid in run[i].db.workflows
    requires AuditSteps(run[i].db.workflows[wid].steps, rivals) && run[i].db.workflows[wid].Terminal()
    ensures var w := run[i].db.workflows[wid];
            Notices(Staged(run[i].db.outbox, wid)) == 1 <==>
              rivals == 0 && lib.payloadAccepted(Finished(wid, w.status, w.error, Reports(w.steps)))
  {
    var w := run[i].db.workflows[wid];
    RefinesInterpreter(AuditRules(lib), run, actions, i, wid);
    RunAnnounces(AuditRules(lib), Engine, wid, Workflow(w.inputs, Running, None, Plan(w.steps)), 0, false,
                 run[i].answers[wid]);
    NoticeFor(lib, wid, w, rivals);
  }

  /** The same from the point of view of whoever asked for the audit: once it has finished, its
      end is announced if and only if the inputs name no competitor and the rest is in order. */
  lemma AnnouncedIffNoCompetitors(lib: Library, run: seq<System>, actions: seq<Action>, i: nat, j: nat, jobs: nat -> Id)
    requires IsRun(AuditRules(lib), run, actions) && i < j < |run| && actions[i].Create?
    requires forall m, n :: jobs(m) == jobs(n) ==> m == n
    requires forall m :: jobs(m) != ""
    requires MakePlan(lib, actions[i].inputs, jobs) == Some(actions[i].plan)
    requires actions[i].wid in run[j].db.workflows && run[j].db.workflows[actions[i].wid].Terminal()
    ensures var wid := actions[i].wid;
            var w := run[j].db.workflows[wid];
            Notices(Staged(run[j].db.outbox, wid)) == 1 <==>
              && Competitors(lib, actions[i].inputs) == []
              && lib.payloadAccepted(Finished(wid, w.status, w.error, Reports(w.steps)))
  {
    AuditForLife(lib, run, actions, i, j, jobs);
    AnnouncedIff(lib, run, actions, j, actions[i].wid, |Competitors(lib, actions[i].inputs)|);
  }

  /** And an audit does end unannounced: it has a competitor, and the one request its first step
      turns into is refused (no page asked for, say), so that it fails at once. */
  lemma Unannounced(lib: Library, inputs: Inputs, jobs: nat -> Id, wid: Id)
    returns (run: seq<System>, actions: seq<Action>)
    requires forall m, n :: jobs(m) == jobs(n) ==> m == n
    requires forall m :: jobs(m) != ""
    requires lib.strip(inputs.startUrl) != "" && Competitors(lib, inputs) != []
    requires !lib.requestAccepted(jobs(0), CrawlRequest(lib.strip(inputs.startUrl), inputs.maxPages, inputs.maxDepth))
    ensures IsRun(AuditRules(lib), run, actions) && |run| == 5
    ensures actions[0].Create? && actions[0].inputs == inputs && actions[0].wid == wid
    ensures MakePlan(lib, inputs, jobs) == Some(actions[0].plan)
    ensures wid in run[4].db.workflows && run[4].db.workflows[wid].Terminal()
    ensures Notices(Staged(run[4].db.outbox, wid)) == 0
  {
    var rules := AuditRules(lib);
    PlanShape(lib, inputs, jobs);
    var plan := MakePlan(lib, inputs, jobs).value;
    var w := Workflow(inputs, Running, None, plan);
    assert plan[0] == FreshStep(Crawl, jobs(0), Params(lib.strip(inputs.startUrl), inputs.maxPages, inputs.maxDepth));
    var s0, s1, s2, s3 := FirstSteps(rules, wid, w);
    var s4 := FailsAtOnce(lib, wid, w, |Competitors(lib, inputs)|, s3);
    run, actions := FourSteps(rules, s0, Create(0, wid, inputs, plan), s1, SetRunning(0), s2, Lock(0), s3,
                              Commit(0), s4);
  }

  lemma FailsAtOnce(lib: Library, wid: Id, w: Workflow, rivals: nat, s3: System) returns (s4: System)
    requires AuditSteps(w.steps, rivals) && Plan(w.steps) == w.steps && w.status.Running? && w.error == None
    requires rivals > 0 && !lib.requestAccepted(w.steps[0].jobId, CrawlParams(w.inputs, w.steps[0]))
    requires s3 == System(Db(map[wid := w], []), map[0 := Locked(wid, w)], map[wid := map[]], {})
    ensures Next(AuditRules(lib), s3, Commit(0), s4)
    ensures wid in s4.db.workflows && s4.db.workflows[wid].Terminal() && Staged(s4.db.outbox, wid) == []
  {
    RefusedAtOnce(lib, wid, w, rivals);
    s4 := Committed(s3, 0, wid, Progress(w.(status := Broke, error := Some(CannotDispatch("payload invalid"))), []));
    assert Commits(AuditRules(lib), s3, 0, s4);
    assert s4.db.outbox == [];
  }

  lemma RefusedAtOnce(lib: Library, wid: Id, w: Workflow, rivals: nat)
    requires AuditSteps(w.steps, rivals) && Plan(w.steps) == w.steps && w.status.Running? && w.error == None
    requires rivals > 0 && !lib.requestAccepted(w.steps[0].jobId, CrawlParams(w.inputs, w.steps[0]))
    ensures Advance(AuditRules(lib), wid, w, w)
         == Progress(w.(status := Broke, error := Some(CannotDispatch("payload invalid"))), [])
  {
    assert forall k :: 0 <= k < |w.steps| ==> w.steps[k] == Plan(w.steps)[k];
    assert NextPending(w.steps) == 0;
    assert AuditRules(lib).dispatch(w.inputs, w.steps, 0) == Raised("payload invalid");
    NoticeFor(lib, wid, w.(status := Broke, error := Some(CannotDispatch("payload invalid"))), rivals);
  }

  /** An announcement satisfies its contract only without competitors. */
  lemma NoticeFor(lib: Library, wid: Id, w: Workflow, rivals: nat)
    requires AuditSteps(w.steps, rivals)
    ensures var e := Finished(wid, w.status, w.error, Reports(w.steps));
            NoticeAccepted(lib, e) <==> rivals == 0 && lib.payloadAccepted(e)
  {
    var e := Finished(wid, w.status, w.error, Reports(w.steps));
    if rivals > 0 {
      assert !Listed(e.steps[6].kind);
    }
  }
}
