/** The orchestrator's tables and the decisions taken over them.

    A workflow is one row of `workflows` together with its steps in position order: the step at
    index `i` has position `i + 1`. A decision is a pure function of the rows it read; the class
    in Handlers.dfy performs the same writes statement by statement, and Protocol.dfy lets
    several processes interleave them.
  */
module Workflows {
  import opened Options

  type Id = string

  datatype Kind =
    | Crawl | KeywordResearch | SerpCheck | LinkAnalysis | ContentAnalysis | OptimizerPlan
    | CompetitorCrawl | CompetitorCheck

  datatype StepStatus = Pending | Dispatched | Completed | Failed | Skipped

  /** What is kept of a completion event: the fields a later step reads, and the rest. */
  datatype Result = Result(
    crawlId: Option<Id>, researchId: Option<Id>, startUrl: Option<string>,
    topKeywords: seq<string>, rest: string)

  datatype Params = Params(startUrl: string, maxPages: Option<int>, maxDepth: Option<int>)

  datatype Step = Step(
    kind: Kind, jobId: Id, params: Params,
    status: StepStatus, result: Option<Result>, error: Option<string>)
  {
    predicate Settled() {
      status.Completed? || status.Failed? || status.Skipped?
    }

    /** A failure that fails the workflow; a competitor's crawl may fail on its own. */
    predicate Fatal() {
      status.Failed? && !kind.CompetitorCrawl?
    }
  }

  datatype Inputs = Inputs(
    startUrl: string, seed: string, lang: string, country: string,
    maxPages: Option<int>, maxDepth: Option<int>,
    trackKeywords: int, optimizePages: int,
    competitors: seq<string>, competitorPages: Option<int>)

  datatype Status = Queued | Running | Succeeded | Broke

  datatype Failure =
    | StepFailed(position: nat, kind: Kind, error: Option<string>)
    | CannotDispatch(reason: string)

  datatype Workflow = Workflow(
    inputs: Inputs, status: Status, error: Option<Failure>, steps: seq<Step>)
  {
    predicate Terminal() {
      status.Succeeded? || status.Broke?
    }

    predicate Waiting() {
      exists i :: 0 <= i < |steps| && steps[i].status.Dispatched?
    }

    predicate HasFatal() {
      exists i :: 0 <= i < |steps| && steps[i].Fatal()
    }
  }

  datatype Request =
    | CrawlRequest(startUrl: string, maxPages: Option<int>, maxDepth: Option<int>)
    | ResearchRequest(seed: string, lang: string, country: string)
    | SerpRequest(domain: string, keywords: seq<string>, lang: string, country: string)
    | LinksRequest(crawlId: Id)
    | ContentRequest(crawlId: Id, researchId: Id)
    | OptimizerRequest(crawlId: Id, pages: int, study: Option<Id>)
    | ComparisonRequest(crawlId: Id, rivals: seq<Id>)

  /** One line of the `steps` list that `workflow.completed` carries. The numbers of the headline
      and the url of the line are taken from the result, so the whole result stands here. */
  datatype StepReport = StepReport(
    kind: Kind, jobId: Id, status: StepStatus, error: Option<string>, result: Option<Result>)

  function ReportOf(s: Step): StepReport {
    StepReport(s.kind, s.jobId, s.status, s.error, s.result)
  }

  /** An event staged in the outbox; both kinds carry the workflow id as correlation id. */
  datatype Event =
    | Requested(workflowId: Id, jobId: Id, request: Request)
    | Finished(workflowId: Id, status: Status, error: Option<Failure>, steps: seq<StepReport>)

  /** Building a request either succeeds, finds nothing to act on, or raises. */
  datatype Outcome = Send(request: Request) | NoWork(reason: string) | Raised(reason: string)

  /** What the engine is parameterised by: how a step's request is built from the workflow's
      inputs and steps, and whether a `workflow.completed` payload satisfies its contract. */
  datatype Rules = Rules(
    dispatch: (Inputs, seq<Step>, nat) -> Outcome,
    publishable: Event -> bool)

  /** A workflow row after some writes, with the events those writes staged. */
  datatype Progress = Progress(workflow: Workflow, events: seq<Event>)

  function After(events: seq<Event>, p: Progress): Progress {
    Progress(p.workflow, events + p.events)
  }

  function NextPending(steps: seq<Step>): (i: nat)
    ensures i <= |steps|
    ensures forall k :: 0 <= k < i ==> !steps[k].status.Pending?
    ensures i < |steps| ==> steps[i].status.Pending?
  {
    if steps == [] || steps[0].status.Pending? then 0 else 1 + NextPending(steps[1..])
  }

  function FirstFatal(steps: seq<Step>): (i: nat)
    ensures i <= |steps|
    ensures forall k :: 0 <= k < i ==> !steps[k].Fatal()
    ensures i < |steps| ==> steps[i].Fatal()
  {
    if steps == [] || steps[0].Fatal() then 0 else 1 + FirstFatal(steps[1..])
  }

  function Blame(steps: seq<Step>, i: nat): Failure
    requires i < |steps|
  {
    StepFailed(i + 1, steps[i].kind, steps[i].error)
  }

  function SetStep(w: Workflow, i: nat, s: Step): Workflow
    requires i < |w.steps|
  {
    w.(steps := w.steps[i := s])
  }

  function MarkSkipped(w: Workflow, i: nat, reason: string): Workflow
    requires i < |w.steps|
  {
    if w.steps[i].status.Pending? then
      SetStep(w, i, w.steps[i].(status := Skipped, error := Some(reason)))
    else w
  }

  function MarkDispatched(w: Workflow, i: nat): Workflow
    requires i < |w.steps|
  {
    if w.steps[i].status.Pending? then SetStep(w, i, w.steps[i].(status := Dispatched)) else w
  }

  function Reports(steps: seq<Step>): (r: seq<StepReport>)
    ensures |r| == |steps|
    ensures forall k :: 0 <= k < |r| ==> r[k] == ReportOf(steps[k])
  {
    if steps == [] then []
    else [ReportOf(steps[0])] + Reports(steps[1..])
  }

  /** The row after `_finish`: `read` is the workflow the report is built from, `row` the row
      being written. An event that breaks its contract is not staged. */
  function Finish(rules: Rules, wid: Id, read: Workflow, row: Workflow,
                  status: Status, error: Option<Failure>): Progress
  {
    var event := Finished(wid, status, error, Reports(read.steps));
    Progress(row.(status := status, error := error), if rules.publishable(event) then [event] else [])
  }

  function Dispatch(wid: Id, row: Workflow, i: nat, request: Request): Progress
    requires i < |row.steps|
  {
    Progress(MarkDispatched(row.(status := Running, error := None), i),
             [Requested(wid, row.steps[i].jobId, request)])
  }

  /** The last part of `advance`: the first pending step had nothing to do and was skipped. */
  function AdvancePastSkip(rules: Rules, wid: Id, w: Workflow): Progress
  {
    var i := NextPending(w.steps);
    if i == |w.steps| then Finish(rules, wid, w, w, Succeeded, None)
    else match rules.dispatch(w.inputs, w.steps, i)
      case Send(request) => Dispatch(wid, w, i, request)
      case NoWork(reason) => Finish(rules, wid, w, w, Broke, Some(CannotDispatch(reason)))
      case Raised(reason) => Finish(rules, wid, w, w, Broke, Some(CannotDispatch(reason)))
  }

  /** `advance`, from the workflow `read` under the lock to the row it commits. The row `now` is
      what the writes find; that it is still what was read is a result about runs. */
  function Advance(rules: Rules, wid: Id, read: Workflow, now: Workflow): (p: Progress)
    requires |read.steps| == |now.steps|
  {
    if read.Terminal() then Progress(now, [])
    else if read.HasFatal() then
      Finish(rules, wid, read, now, Broke, Some(Blame(read.steps, FirstFatal(read.steps))))
    else if read.Waiting() then Progress(now, [])
    else
      var i := NextPending(read.steps);
      if i == |read.steps| then Finish(rules, wid, read, now, Succeeded, None)
      else match rules.dispatch(read.inputs, read.steps, i)
        case Send(request) => Dispatch(wid, now, i, request)
        case NoWork(reason) => AdvancePastSkip(rules, wid, MarkSkipped(now, i, reason))
        case Raised(reason) => Finish(rules, wid, read, now, Broke, Some(CannotDispatch(reason)))
  }

  /** What a completion event reports about a job. */
  datatype Answer = Answer(failed: bool, result: Result, error: Option<string>)

  function Record(s: Step, a: Answer): Step {
    s.(status := if a.failed then Failed else Completed, result := Some(a.result), error := a.error)
  }
}
