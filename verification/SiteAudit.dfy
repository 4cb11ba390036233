/** The one plan the orchestrator knows, the request each of its steps turns into, and the
    completions that answer them.

    Text handling that rests on library tables (stripping, case folding, URL parsing) and the
    JSON contracts are parameters: what is proved holds whatever they are.
  */
module SiteAudit {
  import opened Options
  import opened Workflows
  import opened Interpreter

  datatype Library = Library(
    strip: string -> string,
    casefold: string -> string,
    withScheme: string -> string,
    domainOf: string -> string,
    originOf: string -> string,
    seedFromDomain: string -> string,
    requestAccepted: (Id, Request) -> bool,
    payloadAccepted: Event -> bool)

  const DEFAULT_TRACKED := 10
  const DEFAULT_OPTIMIZED := 5
  const MAX_TRACKED := 50
  const MAX_COMPETITORS := 4
  const DEFAULT_COMPETITOR_PAGES := 20
  const MAX_COMPETITOR_PAGES := 200

  // ---- picking the first distinct entries of a list

  /** The first `cap` cleaned entries that are not blank and whose key is new. */
  function Pick(clean: string -> string, key: string -> string, items: seq<string>,
                seen: set<string>, cap: nat): seq<string>
  {
    if items == [] || cap == 0 then []
    else
      var term := clean(items[0]);
      if term == "" || key(term) in seen then Pick(clean, key, items[1..], seen, cap)
      else [term] + Pick(clean, key, items[1..], seen + {key(term)}, cap - 1)
  }

  /** No more than asked for, none blank, no two with the same key, none with a key already taken. */
  lemma {:induction false} PickDistinct(clean: string -> string, key: string -> string, items: seq<string>,
                     seen: set<string>, cap: nat)
    ensures var out := Pick(clean, key, items, seen, cap);
            && |out| <= cap
            && (forall i :: 0 <= i < |out| ==> out[i] != "" && key(out[i]) !in seen)
            && (forall i, j :: 0 <= i < j < |out| ==> key(out[i]) != key(out[j]))
  {
    if items != [] && cap > 0 {
      var term := clean(items[0]);
      if term == "" || key(term) in seen {
        PickDistinct(clean, key, items[1..], seen, cap);
      } else {
        PickDistinct(clean, key, items[1..], seen + {key(term)}, cap - 1);
      }
    }
  }

  /** Nothing is picked exactly when every entry is blank or already taken. */
  lemma {:induction false} PickNothing(clean: string -> string, key: string -> string, items: seq<string>,
                    seen: set<string>, cap: nat)
    requires cap > 0
    ensures Pick(clean, key, items, seen, cap) == [] <==>
            forall i :: 0 <= i < |items| ==> clean(items[i]) == "" || key(clean(items[i])) in seen
  {
    if items != [] {
      PickNothing(clean, key, items[1..], seen, cap);
      var term := clean(items[0]);
      if term == "" || key(term) in seen {
        assert forall i :: 0 < i < |items| ==> items[i] == items[1..][i - 1];
      }
    }
  }

  /** The loop both `keywords_to_track` and `competitors` are written as. */
  method PickLoop(clean: string -> string, key: string -> string, items: seq<string>,
                  taken: set<string>, cap: nat) returns (out: seq<string>)
    requires cap > 0
    ensures out == Pick(clean, key, items, taken, cap)
  {
    out := [];
    var seen := taken;
    for i := 0 to |items|
      invariant |out| < cap
      invariant Pick(clean, key, items, taken, cap) == out + Pick(clean, key, items[i..], seen, cap - |out|)
    {
      assert items[i..][1..] == items[i + 1..];
      var term := clean(items[i]);
      if term == "" || key(term) in seen {
        continue;
      }
      ghost var rest := Pick(clean, key, items[i + 1..], seen + {key(term)}, cap - |out| - 1);
      assert out + ([term] + rest) == (out + [term]) + rest;
      seen := seen + {key(term)};
      out := out + [term];
      if |out| >= cap {
        assert rest == [];
        return;
      }
    }
  }

  function Clamp(x: int, lo: int, hi: int): int {
    if x > hi then (if hi < lo then lo else hi) else if x < lo then lo else x
  }

  function KeywordsToTrack(lib: Library, research: Option<Result>, limit: int): seq<string> {
    if research.None? then []
    else Pick(lib.strip, lib.casefold, research.value.topKeywords, {}, Clamp(limit, 1, MAX_TRACKED))
  }

  /** At most four competitors, one per origin; an address without an origin is dropped. */
  function Competitors(lib: Library, inputs: Inputs): seq<string> {
    Pick(raw => CleanUrl(lib, raw), lib.originOf, inputs.competitors, {""}, MAX_COMPETITORS)
  }

  function CleanUrl(lib: Library, raw: string): string {
    if lib.strip(raw) == "" then "" else lib.withScheme(lib.strip(raw))
  }

  // ---- the plan

  function FreshStep(kind: Kind, jobId: Id, params: Params): Step {
    Step(kind, jobId, params, Pending, None, None)
  }

  function KindAt(rivals: nat, i: nat): Kind {
    if i == 0 then Crawl
    else if i == 1 then KeywordResearch
    else if i == 2 then SerpCheck
    else if i == 3 then LinkAnalysis
    else if i == 4 then ContentAnalysis
    else if i == 5 then OptimizerPlan
    else if i < 6 + rivals then CompetitorCrawl
    else CompetitorCheck
  }

  function PlanLength(rivals: nat): nat {
    if rivals == 0 then 6 else 7 + rivals
  }

  function CompetitorPages(inputs: Inputs): int {
    match inputs.competitorPages
    case None => DEFAULT_COMPETITOR_PAGES
    case Some(asked) => Clamp(asked, 1, MAX_COMPETITOR_PAGES)
  }

  /** `_site_audit`: six steps for the site itself, one crawl for each competitor and one
      comparison if there is any. No plan without a start url. */
  function MakePlan(lib: Library, inputs: Inputs, jobs: nat -> Id): Option<seq<Step>> {
    var startUrl := lib.strip(inputs.startUrl);
    if startUrl == "" then None
    else
      var rivals := Competitors(lib, inputs);
      var base := [
        FreshStep(Crawl, jobs(0), Params(startUrl, inputs.maxPages, inputs.maxDepth)),
        FreshStep(KeywordResearch, jobs(1), Params("", None, None)),
        FreshStep(SerpCheck, jobs(2), Params("", None, None)),
        FreshStep(LinkAnalysis, jobs(3), Params("", None, None)),
        FreshStep(ContentAnalysis, jobs(4), Params("", None, None)),
        FreshStep(OptimizerPlan, jobs(5), Params("", None, None))];
      var crawls := seq(|rivals|, i requires 0 <= i < |rivals| =>
        FreshStep(CompetitorCrawl, jobs(6 + i), Params(rivals[i], Some(CompetitorPages(inputs)), None)));
      var check := if rivals == [] then []
                   else [FreshStep(CompetitorCheck, jobs(6 + |rivals|), Params("", None, None))];
      Some(base + crawls + check)
  }

  /** The steps of an audit, at whatever point of its life. */
  predicate AuditSteps(steps: seq<Step>, rivals: nat) {
    && |steps| == PlanLength(rivals)
    && DistinctJobs(steps)
    && forall i :: 0 <= i < |steps| ==> steps[i].kind == KindAt(rivals, i) && steps[i].jobId != ""
  }

  /** Every plan has the shape the engine relies on, for at most four rivals. */
  lemma PlanShape(lib: Library, inputs: Inputs, jobs: nat -> Id)
    requires forall i, j :: jobs(i) == jobs(j) ==> i == j
    requires forall i :: jobs(i) != ""
    ensures MakePlan(lib, inputs, jobs).None? <==> lib.strip(inputs.startUrl) == ""
    ensures MakePlan(lib, inputs, jobs).Some? ==>
              var plan := MakePlan(lib, inputs, jobs).value;
              var rivals := |Competitors(lib, inputs)|;
              AuditSteps(plan, rivals) && rivals <= MAX_COMPETITORS && Plan(plan) == plan
  {
    PickDistinct(raw => CleanUrl(lib, raw), lib.originOf, inputs.competitors, {""}, MAX_COMPETITORS);
    if MakePlan(lib, inputs, jobs).Some? {
      var plan := MakePlan(lib, inputs, jobs).value;
      var rivals := |Competitors(lib, inputs)|;
      forall i | 0 <= i < |plan| ensures PlannedAt(plan, rivals, jobs, i) {
        PlanAt(lib, inputs, jobs, i);
      }
      assert |plan| == PlanLength(rivals);
      PlannedShape(plan, rivals, jobs);
    }
  }

  predicate PlannedAt(plan: seq<Step>, rivals: nat, jobs: nat -> Id, i: nat) {
    i < |plan| && plan[i] == FreshStep(KindAt(rivals, i), jobs(i), plan[i].params)
  }

  lemma PlanAt(lib: Library, inputs: Inputs, jobs: nat -> Id, i: nat)
    requires MakePlan(lib, inputs, jobs).Some? && i < |MakePlan(lib, inputs, jobs).value|
    ensures PlannedAt(MakePlan(lib, inputs, jobs).value, |Competitors(lib, inputs)|, jobs, i)
  {
  }

  lemma PlannedShape(plan: seq<Step>, rivals: nat, jobs: nat -> Id)
    requires forall i, j :: jobs(i) == jobs(j) ==> i == j
    requires forall i :: jobs(i) != ""
    requires |plan| == PlanLength(rivals) && forall i :: 0 <= i < |plan| ==> PlannedAt(plan, rivals, jobs, i)
    ensures AuditSteps(plan, rivals) && Plan(plan) == plan
  {
    forall i | 0 <= i < |plan|
      ensures plan[i].jobId == jobs(i) && plan[i].kind == KindAt(rivals, i) && Plan(plan)[i] == plan[i]
    {
      assert PlannedAt(plan, rivals, jobs, i);
    }
  }

  // ---- the request a step turns into

  /** The result of the first step of a kind that has one. */
  function FirstResult(steps: seq<Step>, kind: Kind): Option<Result> {
    if steps == [] then None
    else if steps[0].kind == kind && steps[0].result.Some? then steps[0].result
    else FirstResult(steps[1..], kind)
  }

  function IdIn(o: Option<Id>): Id {
    match o
    case None => ""
    case Some(id) => id
  }

  function CrawlIdOf(r: Option<Result>): Id {
    if r.None? then "" else IdIn(r.value.crawlId)
  }

  function ResearchIdOf(r: Option<Result>): Id {
    if r.None? then "" else IdIn(r.value.researchId)
  }

  /** The crawls of competitors that came back, in position order. */
  function Rivals(steps: seq<Step>): seq<Id> {
    if steps == [] then []
    else
      var id := CrawlIdOf(steps[0].result);
      (if steps[0].kind.CompetitorCrawl? && steps[0].status.Completed? && id != "" then [id] else [])
        + Rivals(steps[1..])
  }

  function OrDefault(asked: int, default: int): int {
    if asked == 0 then default else asked
  }

  function ResolveSeed(lib: Library, inputs: Inputs, crawl: Option<Result>): string {
    if lib.strip(inputs.seed) != "" then lib.strip(inputs.seed)
    else
      var found := if crawl.Some? && crawl.value.startUrl.Some? then crawl.value.startUrl.value else "";
      lib.seedFromDomain(if found != "" then found else inputs.startUrl)
  }

  function CrawlParams(inputs: Inputs, step: Step): Request {
    if step.params.startUrl != "" then
      CrawlRequest(step.params.startUrl, step.params.maxPages, step.params.maxDepth)
    else CrawlRequest(inputs.startUrl, inputs.maxPages, inputs.maxDepth)
  }

  function CrawlStepResult(steps: seq<Step>): Option<Result> {
    if steps == [] then None
    else if steps[0].kind.Crawl? then steps[0].result
    else CrawlStepResult(steps[1..])
  }

  function ResearchParams(lib: Library, inputs: Inputs, steps: seq<Step>): Outcome {
    var seed := ResolveSeed(lib, inputs, CrawlStepResult(steps));
    if seed == "" then Raised("could not work out what to research")
    else Send(ResearchRequest(seed, inputs.lang, inputs.country))
  }

  function SerpParams(lib: Library, inputs: Inputs, steps: seq<Step>): Outcome {
    var keywords := KeywordsToTrack(lib, FirstResult(steps, KeywordResearch),
                                    OrDefault(inputs.trackKeywords, DEFAULT_TRACKED));
    if keywords == [] then NoWork("research produced no keywords to rank-check")
    else if lib.domainOf(inputs.startUrl) == "" then Raised("could not work out which domain to rank-check")
    else Send(SerpRequest(lib.domainOf(inputs.startUrl), keywords, inputs.lang, inputs.country))
  }

  function LinksParams(steps: seq<Step>): Outcome {
    var crawlId := CrawlIdOf(FirstResult(steps, Crawl));
    if crawlId == "" then NoWork("no crawl to analyse") else Send(LinksRequest(crawlId))
  }

  function ContentParams(steps: seq<Step>): Outcome {
    var crawlId := CrawlIdOf(FirstResult(steps, Crawl));
    var researchId := ResearchIdOf(FirstResult(steps, KeywordResearch));
    if crawlId == "" || researchId == "" then NoWork("content coverage needs both a crawl and a keyword study")
    else Send(ContentRequest(crawlId, researchId))
  }

  function OptimizerParams(inputs: Inputs, steps: seq<Step>): Outcome {
    var crawlId := CrawlIdOf(FirstResult(steps, Crawl));
    var researchId := ResearchIdOf(FirstResult(steps, KeywordResearch));
    if crawlId == "" then NoWork("no crawl to optimise")
    else Send(OptimizerRequest(crawlId, OrDefault(inputs.optimizePages, DEFAULT_OPTIMIZED),
                               if researchId == "" then None else Some(researchId)))
  }

  function CompetitorParams(steps: seq<Step>): Outcome {
    var crawlId := CrawlIdOf(FirstResult(steps, Crawl));
    var rivals := Rivals(steps);
    if crawlId == "" then NoWork("no crawl of your own site to compare")
    else if rivals == [] then NoWork("no competitor crawl finished, so there is nothing to compare with")
    else Send(ComparisonRequest(crawlId, rivals))
  }

  function StepParams(lib: Library, inputs: Inputs, steps: seq<Step>, i: nat): Outcome
    requires i < |steps|
  {
    match steps[i].kind
    case Crawl => Send(CrawlParams(inputs, steps[i]))
    case CompetitorCrawl => Send(CrawlParams(inputs, steps[i]))
    case KeywordResearch => ResearchParams(lib, inputs, steps)
    case SerpCheck => SerpParams(lib, inputs, steps)
    case LinkAnalysis => LinksParams(steps)
    case ContentAnalysis => ContentParams(steps)
    case OptimizerPlan => OptimizerParams(inputs, steps)
    case CompetitorCheck => CompetitorParams(steps)
  }

  /** `_dispatch_event`: a payload that breaks its contract raises before it is staged. */
  function DispatchEvent(lib: Library, inputs: Inputs, steps: seq<Step>, i: nat): Outcome {
    if i >= |steps| then Raised("no such step")
    else match StepParams(lib, inputs, steps, i)
      case Send(request) =>
        if lib.requestAccepted(steps[i].jobId, request) then Send(request) else Raised("payload invalid")
      case other => other
  }

  /** The step kinds that the contract of `workflow.completed` lists. */
  predicate Listed(kind: Kind) {
    !kind.CompetitorCrawl? && !kind.CompetitorCheck?
  }

  predicate NoticeAccepted(lib: Library, e: Event) {
    && (e.Finished? ==> forall k :: 0 <= k < |e.steps| ==> Listed(e.steps[k].kind))
    && lib.payloadAccepted(e)
  }

  function AuditRules(lib: Library): Rules {
    Rules((inputs: Inputs, steps: seq<Step>, i: nat) => DispatchEvent(lib, inputs, steps, i),
          e => NoticeAccepted(lib, e))
  }

  // ---- completion events

  datatype EventType =
    | CrawlCompleted | KeywordResearched | SerpChecked | LinksAnalyzed | ContentAnalyzed
    | OptimizerPlanned | CompetitorCompared

  datatype Payload = Payload(
    crawlId: Option<Id>, researchId: Option<Id>, otherId: Option<Id>,
    failed: bool, error: Option<string>, startUrl: Option<string>, topKeywords: seq<string>, rest: string)

  /** The id that ties a completion back to its step. */
  function JobIdOf(t: EventType, payload: Payload): Id {
    match t
    case CrawlCompleted => IdIn(payload.crawlId)
    case KeywordResearched => IdIn(payload.researchId)
    case _ => IdIn(payload.otherId)
  }

  function StepResult(t: EventType, payload: Payload): Result {
    match t
    case CrawlCompleted => Result(payload.crawlId, None, payload.startUrl, [], payload.rest)
    case KeywordResearched =>
      Result(None, payload.researchId, None,
             if |payload.topKeywords| <= 25 then payload.topKeywords else payload.topKeywords[..25], payload.rest)
    case SerpChecked => Result(None, None, None, [], payload.rest)
    case ContentAnalyzed => Result(payload.crawlId, payload.researchId, None, [], payload.rest)
    case _ => Result(payload.crawlId, None, None, [], payload.rest)
  }

  function AnswerOf(t: EventType, payload: Payload): Answer {
    Answer(payload.failed, StepResult(t, payload), payload.error)
  }

  /** The event type that reports a step of this kind. */
  function CompletionFor(kind: Kind): EventType {
    match kind
    case Crawl => CrawlCompleted
    case CompetitorCrawl => CrawlCompleted
    case KeywordResearch => KeywordResearched
    case SerpCheck => SerpChecked
    case LinkAnalysis => LinksAnalyzed
    case ContentAnalysis => ContentAnalyzed
    case OptimizerPlan => OptimizerPlanned
    case CompetitorCheck => CompetitorCompared
  }

  /** Every answer to one of the steps came in an event of the type that reports that step. */
  ghost predicate Honest(steps: seq<Step>, answers: map<Id, Answer>) {
    forall k :: 0 <= k < |steps| && steps[k].jobId in answers ==>
      exists payload :: HonestAnswer(steps[k], payload, answers[steps[k].jobId])
  }

  predicate HonestAnswer(step: Step, payload: Payload, a: Answer) {
    JobIdOf(CompletionFor(step.kind), payload) == step.jobId && a == AnswerOf(CompletionFor(step.kind), payload)
  }
}
