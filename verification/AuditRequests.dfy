/** What the requests of an audit carry, in terms of its inputs and of the answers that came.
  */
module AuditRequests {
  import opened Options
  import opened Picks
  import opened Workflows
  import opened Interpreter
  import opened RowInvariant
  import opened Protocol
  import opened Orchestration
  import opened Accounts
  import opened SiteAudit
  import opened AuditRuns

  // ---- the first distinct entries of a list

  /** Entry `k` has nothing new: it is blank, or its key was taken before, or stood earlier. */
  predicate Stale(terms: seq<string>, key: string -> string, taken: set<string>, k: nat)
    requires k < |terms|
  {
    || terms[k] == ""
    || key(terms[k]) in taken
    || exists j :: 0 <= j < k && terms[j] != "" && key(terms[j]) == key(terms[k])
  }

  /** `idx` says, in ascending order, which the first `cap` entries are that have something new. */
  ghost predicate FirstFew(terms: seq<string>, key: string -> string, taken: set<string>, cap: nat, idx: seq<nat>) {
    && |idx| <= cap && Ascending(idx)
    && (forall j :: 0 <= j < |idx| ==> idx[j] < |terms| && !Stale(terms, key, taken, idx[j]))
    && (forall k :: 0 <= k < |terms| && !Stale(terms, key, taken, k) && k !in idx ==> Full(idx, cap, k))
  }

  function Cleaned(clean: string -> string, items: seq<string>): seq<string> {
    seq(|items|, i requires 0 <= i < |items| => clean(items[i]))
  }

  /** The first entries that are new, none left out before the cap is reached. */
  ghost predicate FirstDistinct(terms: seq<string>, key: string -> string, taken: set<string>, cap: nat,
                                out: seq<string>) {
    exists idx: seq<nat> :: FirstFew(terms, key, taken, cap, idx) && out == Chosen(terms, idx)
  }

  /** `idx` are all the new entries before `i`, and `seen` is what makes the next one stale. */
  ghost predicate Sofar(terms: seq<string>, key: string -> string, taken: set<string>, i: nat, seen: set<string>,
                        idx: seq<nat>)
  {
    && i <= |terms| && Ascending(idx)
    && (forall j :: 0 <= j < |idx| ==> idx[j] < i && !Stale(terms, key, taken, idx[j]))
    && (forall k :: 0 <= k < i && !Stale(terms, key, taken, k) ==> k in idx)
    && (forall x :: x in seen <==> x in taken || Stood(terms, key, i, x))
  }

  predicate Stood(terms: seq<string>, key: string -> string, i: nat, x: string)
    requires i <= |terms|
  {
    exists j :: 0 <= j < i && terms[j] != "" && key(terms[j]) == x
  }

  /** The pick is exactly those entries. */
  lemma PickIsFirst(clean: string -> string, key: string -> string, items: seq<string>, taken: set<string>, cap: nat)
    ensures FirstDistinct(Cleaned(clean, items), key, taken, cap, Pick(clean, key, items, taken, cap))
  {
    PickGoesOn(clean, key, items, taken, cap, 0, taken, []);
    assert items[0..] == items;
    assert Chosen(Cleaned(clean, items), []) == [];
  }

  lemma {:induction false} PickGoesOn(clean: string -> string, key: string -> string, items: seq<string>,
                                      taken: set<string>, cap: nat, i: nat, seen: set<string>, idx: seq<nat>)
    requires Sofar(Cleaned(clean, items), key, taken, i, seen, idx) && |idx| <= cap
    ensures FirstDistinct(Cleaned(clean, items), key, taken, cap,
                          Chosen(Cleaned(clean, items), idx) + Pick(clean, key, items[i..], seen, cap - |idx|))
    decreases |items| - i
  {
    var terms := Cleaned(clean, items);
    if i == |items| || |idx| == cap {
      FewAtLast(terms, key, taken, cap, i, seen, idx);
      assert Chosen(terms, idx) + [] == Chosen(terms, idx);
    } else {
      assert items[i..][1..] == items[i + 1..] && items[i..][0] == items[i];
      SofarNext(terms, key, taken, i, seen, idx);
      if Stale(terms, key, taken, i) {
        PickGoesOn(clean, key, items, taken, cap, i + 1, seen, idx);
      } else {
        PickGoesOn(clean, key, items, taken, cap, i + 1, seen + {key(terms[i])}, idx + [i]);
        OneMore(terms, idx, i, Pick(clean, key, items[i + 1..], seen + {key(terms[i])}, cap - |idx| - 1));
      }
    }
  }

  lemma OneMore(terms: seq<string>, idx: seq<nat>, i: nat, rest: seq<string>)
    requires i < |terms| && forall j :: 0 <= j < |idx| ==> idx[j] < i
    ensures Chosen(terms, idx) + ([terms[i]] + rest) == Chosen(terms, idx + [i]) + rest
  {
    assert Chosen(terms, idx + [i]) == Chosen(terms, idx) + [terms[i]];
  }

  lemma FewAtLast(terms: seq<string>, key: string -> string, taken: set<string>, cap: nat, i: nat, seen: set<string>,
                  idx: seq<nat>)
    requires Sofar(terms, key, taken, i, seen, idx) && |idx| <= cap && (i == |terms| || |idx| == cap)
    ensures FirstFew(terms, key, taken, cap, idx)
  {
    forall k | 0 <= k < |terms| && !Stale(terms, key, taken, k) && k !in idx ensures Full(idx, cap, k) {
      assert k >= i;
    }
  }

  /** The next entry is stale exactly if it is blank or its key has been seen. */
  lemma SofarNext(terms: seq<string>, key: string -> string, taken: set<string>, i: nat, seen: set<string>,
                  idx: seq<nat>)
    requires Sofar(terms, key, taken, i, seen, idx) && i < |terms|
    ensures Stale(terms, key, taken, i) <==> terms[i] == "" || key(terms[i]) in seen
    ensures Stale(terms, key, taken, i) ==> Sofar(terms, key, taken, i + 1, seen, idx)
    ensures !Stale(terms, key, taken, i) ==> Sofar(terms, key, taken, i + 1, seen + {key(terms[i])}, idx + [i])
  {
    StoodNext(terms, key, i);
    StaleMeans(terms, key, taken, i);
    if !Stale(terms, key, taken, i) {
      var next := idx + [i];
      assert next[|idx|] == i;
      forall k | 0 <= k < i + 1 && !Stale(terms, key, taken, k) ensures k in next {
      }
    }
  }

  lemma StaleMeans(terms: seq<string>, key: string -> string, taken: set<string>, i: nat)
    requires i < |terms|
    ensures Stale(terms, key, taken, i) <==>
            terms[i] == "" || key(terms[i]) in taken || Stood(terms, key, i, key(terms[i]))
  {
  }

  lemma StoodNext(terms: seq<string>, key: string -> string, i: nat)
    requires i < |terms|
    ensures forall x :: Stood(terms, key, i + 1, x) <==>
              Stood(terms, key, i, x) || (terms[i] != "" && key(terms[i]) == x)
  {
    forall x
      ensures Stood(terms, key, i + 1, x) <==> Stood(terms, key, i, x) || (terms[i] != "" && key(terms[i]) == x)
    {
      if Stood(terms, key, i, x) {
        var j :| 0 <= j < i && terms[j] != "" && key(terms[j]) == x;
        assert Stood(terms, key, i + 1, x);
      }
    }
  }

  // ---- what a request carries

  /** The job of step `n` was answered, and it had not failed. */
  predicate WentWell(plan: seq<Step>, answers: map<Id, Answer>, n: nat)
    requires n < |plan|
  {
    plan[n].jobId in answers && !answers[plan[n].jobId].failed
  }

  function ToldBy(plan: seq<Step>, answers: map<Id, Answer>, n: nat): Result
    requires n < |plan| && WentWell(plan, answers, n)
  {
    answers[plan[n].jobId].result
  }

  /** What to research: what was asked for, or else it is worked out from where the crawl started,
      or else from where it was told to start. */
  predicate SeedFits(lib: Library, inputs: Inputs, found: Option<string>, seed: string) {
    seed != "" &&
    if lib.strip(inputs.seed) != "" then seed == lib.strip(inputs.seed)
    else if found.Some? && found.value != "" then seed == lib.seedFromDomain(found.value)
    else seed == lib.seedFromDomain(inputs.startUrl)
  }

  /** How many keywords to track: ten unless told otherwise, at least one, at most fifty. */
  predicate LimitFits(asked: int, limit: nat) {
    && (asked == 0 ==> limit == 10)
    && (asked < 0 ==> limit == 1)
    && (asked > 0 ==> limit <= asked && limit <= 50 && (limit == asked || limit == 50))
  }

  ghost predicate KeywordsFit(lib: Library, inputs: Inputs, found: seq<string>, keywords: seq<string>) {
    && keywords != []
    && exists limit: nat :: LimitFits(inputs.trackKeywords, limit)
         && FirstDistinct(Cleaned(lib.strip, found), lib.casefold, {}, limit, keywords)
  }

  /** An address as a competitor may be given: blank, or with a scheme. */
  predicate AddressFits(lib: Library, raw: string, address: string) {
    if lib.strip(raw) == "" then address == "" else address == lib.withScheme(lib.strip(raw))
  }

  /** The first four addresses of different origins, those without an origin left out. */
  ghost predicate RivalSites(lib: Library, inputs: Inputs, sites: seq<string>) {
    exists all: seq<string> ::
      && |all| == |inputs.competitors|
      && (forall n :: 0 <= n < |all| ==> AddressFits(lib, inputs.competitors[n], all[n]))
      && FirstDistinct(all, lib.originOf, {""}, 4, sites)
  }

  predicate PagesFit(asked: Option<int>, pages: Option<int>) {
    match asked
    case None => pages == Some(20)
    case Some(n) => pages == Some(if n < 1 then 1 else if n > 200 then 200 else n)
  }

  /** Step `j` crawled a competitor, and it came back as crawl `id`. */
  predicate CameBack(plan: seq<Step>, answers: map<Id, Answer>, j: nat, id: Id)
    requires j < |plan|
  {
    && plan[j].kind.CompetitorCrawl? && WentWell(plan, answers, j)
    && id != "" && ToldBy(plan, answers, j).crawlId == Some(id)
  }

  /** `ids` are the crawls of competitors among the steps from `i` up to `k` that came back, all of
      them and in order; `idx` says by which steps. */
  ghost predicate AllBack(plan: seq<Step>, answers: map<Id, Answer>, i: nat, k: nat, ids: seq<Id>, idx: seq<nat>) {
    && i <= k <= |plan| && |ids| == |idx| && Ascending(idx)
    && (forall n :: 0 <= n < |idx| ==> i <= idx[n] < k && CameBack(plan, answers, idx[n], ids[n]))
    && (forall j, id :: i <= j < k && CameBack(plan, answers, j, id) ==> j in idx)
  }

  /** What the request for step `k` of an audit carries. */
  ghost predicate RequestFits(lib: Library, inputs: Inputs, plan: seq<Step>, answers: map<Id, Answer>, k: nat,
                              request: Request)
    requires |plan| >= 6 && k < |plan|
  {
    && (k > 0 ==> WentWell(plan, answers, 0))
    && (k > 1 ==> WentWell(plan, answers, 1))
    && match request
       case CrawlRequest(url, pages, depth) =>
         if k == 0 then url == lib.strip(inputs.startUrl) && pages == inputs.maxPages && depth == inputs.maxDepth
         else
           && k >= 6 && depth == None && PagesFit(inputs.competitorPages, pages)
           && exists sites: seq<string> :: RivalSites(lib, inputs, sites) && k - 6 < |sites| && url == sites[k - 6]
       case ResearchRequest(seed, lang, country) =>
         && k == 1 && lang == inputs.lang && country == inputs.country
         && SeedFits(lib, inputs, ToldBy(plan, answers, 0).startUrl, seed)
       case SerpRequest(domain, keywords, lang, country) =>
         && k == 2 && lang == inputs.lang && country == inputs.country
         && domain == lib.domainOf(inputs.startUrl) && domain != ""
         && KeywordsFit(lib, inputs, ToldBy(plan, answers, 1).topKeywords, keywords)
       case LinksRequest(crawl) => k == 3 && crawl != "" && crawl == OwnCrawl(plan, answers)
       case ContentRequest(crawl, research) =>
         && k == 4 && crawl != "" && crawl == OwnCrawl(plan, answers)
         && research != "" && research == OwnResearch(plan, answers)
       case OptimizerRequest(crawl, pages, study) =>
         && k == 5 && crawl != "" && crawl == OwnCrawl(plan, answers)
         && pages == (if inputs.optimizePages == 0 then 5 else inputs.optimizePages)
         && study == (if OwnResearch(plan, answers) == "" then None else Some(OwnResearch(plan, answers)))
       case ComparisonRequest(crawl, rivals) =>
         && k == |plan| - 1 && k > 6 && crawl != "" && crawl == OwnCrawl(plan, answers)
         && rivals != [] && exists idx: seq<nat> :: AllBack(plan, answers, 0, k, rivals, idx)
  }

  // ---- when it is a step's turn

  /** Crawls and the research always have something to do. */
  predicate AlwaysAsks(kind: Kind) {
    kind.Crawl? || kind.KeywordResearch? || kind.CompetitorCrawl?
  }

  /** The steps when it is step `k`'s turn. */
  predicate TurnFits(plan: seq<Step>, turn: seq<Step>, answers: map<Id, Answer>, k: nat) {
    && k < |turn| == |plan|
    && (forall j :: 0 <= j < |turn| ==> turn[j].kind == plan[j].kind)
    && (forall j :: k <= j < |turn| ==> turn[j] == plan[j] && turn[j].status.Pending? && turn[j].result == None)
    && (forall j :: 0 <= j < k ==> EarlierFits(plan, turn, answers, j))
  }

  predicate EarlierFits(plan: seq<Step>, turn: seq<Step>, answers: map<Id, Answer>, j: nat)
    requires j < |turn| == |plan|
  {
    && turn[j].Settled() && !turn[j].Fatal()
    && (AlwaysAsks(plan[j].kind) ==> plan[j].jobId in answers && AnsweredAs(turn[j], answers[plan[j].jobId]))
  }

  lemma TurnOf(lib: Library, inputs: Inputs, plan: seq<Step>, steps: seq<Step>, answers: map<Id, Answer>, k: nat)
    requires k < |steps| == |plan| && Accounts.Untouched(plan)
    requires forall j :: 0 <= j < k ==> steps[j].Settled() && !steps[j].Fatal()
    requires forall j :: 0 <= j < k ==> StepFits(AuditRules(lib), inputs, plan, steps, answers, j)
    ensures TurnFits(plan, Before(plan, steps, k), answers, k)
  {
    var turn := Before(plan, steps, k);
    forall j | 0 <= j < k ensures turn[j].kind == plan[j].kind && EarlierFits(plan, turn, answers, j) {
      EarlierOf(lib, inputs, plan, steps, answers, j);
      assert turn[j] == steps[j];
    }
  }

  lemma EarlierOf(lib: Library, inputs: Inputs, plan: seq<Step>, steps: seq<Step>, answers: map<Id, Answer>, j: nat)
    requires j < |steps| == |plan| && steps[j].Settled() && !steps[j].Fatal()
    requires StepFits(AuditRules(lib), inputs, plan, steps, answers, j)
    ensures steps[j].kind == plan[j].kind && EarlierFits(plan, steps, answers, j)
  {
    var turn := Before(plan, steps, j);
    assert turn[j] == plan[j];
    assert AuditRules(lib).dispatch(inputs, turn, j) == DispatchEvent(lib, inputs, turn, j);
    if AlwaysAsks(plan[j].kind) {
      assert !StepParams(lib, inputs, turn, j).NoWork?;
    }
  }

  /** What later steps find of the first two. */
  predicate Found(plan: seq<Step>, turn: seq<Step>, answers: map<Id, Answer>, k: nat)
    requires |plan| >= 2
  {
    && (k > 0 ==> WentWell(plan, answers, 0) && FirstResult(turn, Crawl) == Some(ToldBy(plan, answers, 0)))
    && (k > 0 ==> CrawlStepResult(turn) == FirstResult(turn, Crawl))
    && (k > 1 ==> WentWell(plan, answers, 1) && FirstResult(turn, KeywordResearch) == Some(ToldBy(plan, answers, 1)))
  }

  lemma FirstTwo(plan: seq<Step>, turn: seq<Step>, answers: map<Id, Answer>, rivals: nat, k: nat)
    requires TurnFits(plan, turn, answers, k) && AuditSteps(plan, rivals)
    ensures Found(plan, turn, answers, k)
  {
    assert FirstResult(turn, KeywordResearch) == FirstResult(turn[1..], KeywordResearch);
    if k > 0 {
      assert EarlierFits(plan, turn, answers, 0);
    }
    if k > 1 {
      assert EarlierFits(plan, turn, answers, 1);
      assert FirstResult(turn[1..], KeywordResearch) == turn[1].result;
    }
  }

  lemma {:induction false} RivalsBack(plan: seq<Step>, turn: seq<Step>, answers: map<Id, Answer>, k: nat, i: nat)
    returns (idx: seq<nat>)
    requires TurnFits(plan, turn, answers, k) && i <= |turn|
    ensures AllBack(plan, answers, if i < k then i else k, k, Rivals(turn[i..]), idx)
    decreases |turn| - i
  {
    if i == |turn| {
      idx := [];
    } else {
      assert turn[i..][0] == turn[i] && turn[i..][1..] == turn[i + 1..];
      var later := RivalsBack(plan, turn, answers, k, i + 1);
      var back := turn[i].kind.CompetitorCrawl? && turn[i].status.Completed? && CrawlIdOf(turn[i].result) != "";
      idx := (if back then [i] else []) + later;
      if i < k {
        assert EarlierFits(plan, turn, answers, i);
        BackFirst(plan, answers, i, k, CrawlIdOf(turn[i].result), back, Rivals(turn[i + 1..]), later);
      }
    }
  }

  lemma BackFirst(plan: seq<Step>, answers: map<Id, Answer>, i: nat, k: nat, id: Id, back: bool, ids: seq<Id>,
                  later: seq<nat>)
    requires i < k && AllBack(plan, answers, i + 1, k, ids, later)
    requires back ==> CameBack(plan, answers, i, id)
    requires !back ==> forall other :: !CameBack(plan, answers, i, other)
    ensures AllBack(plan, answers, i, k, (if back then [id] else []) + ids, (if back then [i] else []) + later)
  {
    var all, idx := (if back then [id] else []) + ids, (if back then [i] else []) + later;
    forall n | 0 <= n < |idx| ensures i <= idx[n] < k && CameBack(plan, answers, idx[n], all[n]) {
      if back && n > 0 {
        assert CameBack(plan, answers, later[n - 1], ids[n - 1]);
      }
    }
    forall j, other | i <= j < k && CameBack(plan, answers, j, other) ensures j in idx {
      assert j == i ==> idx[0] == i;
    }
  }

  // ---- the requests

  /** What the crawl steps of a plan were given. */
  ghost predicate CrawlsFit(lib: Library, inputs: Inputs, plan: seq<Step>, rivals: nat) {
    && AuditSteps(plan, rivals) && Accounts.Untouched(plan)
    && plan[0].params == Params(lib.strip(inputs.startUrl), inputs.maxPages, inputs.maxDepth)
    && lib.strip(inputs.startUrl) != ""
    && exists sites: seq<string> :: RivalSites(lib, inputs, sites) && |sites| == rivals
         && forall n :: 0 <= n < rivals ==> SiteGiven(inputs, plan[6 + n].params, sites[n])
  }

  predicate SiteGiven(inputs: Inputs, params: Params, site: string) {
    && params.startUrl == site && site != ""
    && PagesFit(inputs.competitorPages, params.maxPages) && params.maxDepth == None
  }

  lemma PlanFits(lib: Library, inputs: Inputs, jobs: nat -> Id)
    requires forall i, j :: jobs(i) == jobs(j) ==> i == j
    requires forall i :: jobs(i) != ""
    requires MakePlan(lib, inputs, jobs).Some?
    ensures CrawlsFit(lib, inputs, MakePlan(lib, inputs, jobs).value, |Competitors(lib, inputs)|)
  {
    var plan, sites := MakePlan(lib, inputs, jobs).value, Competitors(lib, inputs);
    PlanShape(lib, inputs, jobs);
    assert forall k :: 0 <= k < |plan| ==> plan[k] == Plan(plan)[k];
    SitesPicked(lib, inputs);
    forall n | 0 <= n < |sites| ensures SiteGiven(inputs, plan[6 + n].params, sites[n]) {
      SitePlanned(lib, inputs, jobs, n);
    }
  }

  lemma SitesPicked(lib: Library, inputs: Inputs)
    ensures RivalSites(lib, inputs, Competitors(lib, inputs))
    ensures forall n :: 0 <= n < |Competitors(lib, inputs)| ==> Competitors(lib, inputs)[n] != ""
  {
    var clean := raw => CleanUrl(lib, raw);
    var all := Cleaned(clean, inputs.competitors);
    PickIsFirst(clean, lib.originOf, inputs.competitors, {""}, MAX_COMPETITORS);
    PickDistinct(clean, lib.originOf, inputs.competitors, {""}, MAX_COMPETITORS);
    assert forall n :: 0 <= n < |all| ==> AddressFits(lib, inputs.competitors[n], all[n]);
  }

  lemma SitePlanned(lib: Library, inputs: Inputs, jobs: nat -> Id, n: nat)
    requires MakePlan(lib, inputs, jobs).Some? && n < |Competitors(lib, inputs)|
    ensures |MakePlan(lib, inputs, jobs).value| > 6 + n
    ensures MakePlan(lib, inputs, jobs).value[6 + n].params
         == Params(Competitors(lib, inputs)[n], Some(CompetitorPages(inputs)), None)
  {
  }

  /** A request says what it should, for whichever step it is. */
  lemma SendsMean(lib: Library, inputs: Inputs, plan: seq<Step>, rivals: nat, turn: seq<Step>, answers: map<Id, Answer>,
                  k: nat, request: Request)
    requires CrawlsFit(lib, inputs, plan, rivals) && TurnFits(plan, turn, answers, k)
    requires DispatchEvent(lib, inputs, turn, k) == Send(request)
    ensures RequestFits(lib, inputs, plan, answers, k, request) && lib.requestAccepted(plan[k].jobId, request)
  {
    FirstTwo(plan, turn, answers, rivals, k);
    assert StepParams(lib, inputs, turn, k) == Send(request);
    match plan[k].kind
    case Crawl => CrawlSent(lib, inputs, plan, rivals, answers, k, request);
    case CompetitorCrawl => CrawlSent(lib, inputs, plan, rivals, answers, k, request);
    case KeywordResearch => StudiesSent(lib, inputs, plan, rivals, turn, answers, k, request);
    case SerpCheck => StudiesSent(lib, inputs, plan, rivals, turn, answers, k, request);
    case CompetitorCheck =>
      var idx := RivalsBack(plan, turn, answers, k, 0);
      assert turn[0..] == turn;
      ComparisonSent(lib, inputs, plan, rivals, turn, answers, k, request, idx);
    case _ => AnalysesSent(lib, inputs, plan, rivals, turn, answers, k, request);
  }

  lemma CrawlSent(lib: Library, inputs: Inputs, plan: seq<Step>, rivals: nat, answers: map<Id, Answer>, k: nat,
                  request: Request)
    requires CrawlsFit(lib, inputs, plan, rivals) && k < |plan|
    requires plan[k].kind.Crawl? || plan[k].kind.CompetitorCrawl?
    requires request == CrawlParams(inputs, plan[k])
    requires (k > 0 ==> WentWell(plan, answers, 0)) && (k > 1 ==> WentWell(plan, answers, 1))
    ensures RequestFits(lib, inputs, plan, answers, k, request)
  {
    if plan[k].kind.CompetitorCrawl? {
      RivalCrawlSent(lib, inputs, plan, rivals, k);
    }
  }

  lemma StudiesSent(lib: Library, inputs: Inputs, plan: seq<Step>, rivals: nat, turn: seq<Step>,
                    answers: map<Id, Answer>, k: nat, request: Request)
    requires AuditSteps(plan, rivals) && k < |plan| && Found(plan, turn, answers, k)
    requires plan[k].kind.KeywordResearch? || plan[k].kind.SerpCheck?
    requires plan[k].kind.KeywordResearch? ==> ResearchParams(lib, inputs, turn) == Send(request)
    requires plan[k].kind.SerpCheck? ==> SerpParams(lib, inputs, turn) == Send(request)
    ensures RequestFits(lib, inputs, plan, answers, k, request)
  {
    if k == 2 {
      KeywordsSent(lib, inputs, ToldBy(plan, answers, 1));
    }
  }

  lemma AnalysesSent(lib: Library, inputs: Inputs, plan: seq<Step>, rivals: nat, turn: seq<Step>,
                     answers: map<Id, Answer>, k: nat, request: Request)
    requires AuditSteps(plan, rivals) && k < |plan| && Found(plan, turn, answers, k)
    requires plan[k].kind.LinkAnalysis? || plan[k].kind.ContentAnalysis? || plan[k].kind.OptimizerPlan?
    requires plan[k].kind.LinkAnalysis? ==> LinksParams(turn) == Send(request)
    requires plan[k].kind.ContentAnalysis? ==> ContentParams(turn) == Send(request)
    requires plan[k].kind.OptimizerPlan? ==> OptimizerParams(inputs, turn) == Send(request)
    ensures RequestFits(lib, inputs, plan, answers, k, request)
  {
  }

  lemma ComparisonSent(lib: Library, inputs: Inputs, plan: seq<Step>, rivals: nat, turn: seq<Step>,
                       answers: map<Id, Answer>, k: nat, request: Request, idx: seq<nat>)
    requires AuditSteps(plan, rivals) && k < |plan| && Found(plan, turn, answers, k)
    requires plan[k].kind.CompetitorCheck? && CompetitorParams(turn) == Send(request)
    requires AllBack(plan, answers, 0, k, Rivals(turn), idx)
    ensures RequestFits(lib, inputs, plan, answers, k, request)
  {
  }

  lemma RivalCrawlSent(lib: Library, inputs: Inputs, plan: seq<Step>, rivals: nat, k: nat)
    requires CrawlsFit(lib, inputs, plan, rivals) && k < |plan| && plan[k].kind.CompetitorCrawl?
    ensures k >= 6 && plan[k].params.startUrl != "" && plan[k].params.maxDepth == None
    ensures PagesFit(inputs.competitorPages, plan[k].params.maxPages)
    ensures exists sites: seq<string> ::
              RivalSites(lib, inputs, sites) && k - 6 < |sites| && plan[k].params.startUrl == sites[k - 6]
  {
    var sites: seq<string> :| RivalSites(lib, inputs, sites) && |sites| == rivals
      && forall n :: 0 <= n < rivals ==> SiteGiven(inputs, plan[6 + n].params, sites[n]);
    assert SiteGiven(inputs, plan[6 + (k - 6)].params, sites[k - 6]);
  }

  lemma KeywordsSent(lib: Library, inputs: Inputs, study: Result)
    ensures var keywords := KeywordsToTrack(lib, Some(study), OrDefault(inputs.trackKeywords, DEFAULT_TRACKED));
            keywords != [] ==> KeywordsFit(lib, inputs, study.topKeywords, keywords)
  {
    var limit := Clamp(OrDefault(inputs.trackKeywords, DEFAULT_TRACKED), 1, MAX_TRACKED);
    PickIsFirst(lib.strip, lib.casefold, study.topKeywords, {}, limit);
    assert LimitFits(inputs.trackKeywords, limit);
  }

  /** The steps of an audit when it was step `k`'s turn. */
  lemma TurnIn(lib: Library, run: seq<System>, actions: seq<Action>, i: nat, j: nat, k: nat, jobs: nat -> Id)
    returns (turn: seq<Step>)
    requires IsRun(AuditRules(lib), run, actions) && i < j < |run| && actions[i].Create?
    requires forall m, n :: jobs(m) == jobs(n) ==> m == n
    requires forall m :: jobs(m) != ""
    requires MakePlan(lib, actions[i].inputs, jobs) == Some(actions[i].plan)
    requires actions[i].wid in run[j].db.workflows && k < |run[j].db.workflows[actions[i].wid].steps|
    requires run[j].db.workflows[actions[i].wid].steps[k].status != Pending
    ensures actions[i].wid in run[j].answers && k < |actions[i].plan|
    ensures turn == Before(actions[i].plan, run[j].db.workflows[actions[i].wid].steps, k)
    ensures TurnFits(actions[i].plan, turn, run[j].answers[actions[i].wid], k)
    ensures AuditRules(lib).dispatch(actions[i].inputs, turn, k) == DispatchEvent(lib, actions[i].inputs, turn, k)
  {
    var rules, wid, plan, inputs := AuditRules(lib), actions[i].wid, actions[i].plan, actions[i].inputs;
    AuditForLife(lib, run, actions, i, j, jobs);
    PlanFits(lib, inputs, jobs);
    var w := run[j].db.workflows[wid];
    RowOf(rules, run, actions, j, wid);
    forall m | 0 <= m < k
      ensures w.steps[m].Settled() && !w.steps[m].Fatal()
      ensures StepFits(rules, inputs, plan, w.steps, run[j].answers[wid], m)
    {
      StepsTell(rules, run, actions, j, wid, m);
    }
    TurnOf(lib, inputs, plan, w.steps, run[j].answers[wid], k);
    turn := Before(plan, w.steps, k);
  }

  lemma StepAskedFor(rules: Rules, run: seq<System>, actions: seq<Action>, j: nat, n: nat) returns (k: nat)
    requires IsRun(rules, run, actions) && j < |run|
    requires n < |run[j].db.outbox| && run[j].db.outbox[n].Requested?
    ensures var e := run[j].db.outbox[n];
            && e.workflowId in run[j].db.workflows
            && var w := run[j].db.workflows[e.workflowId];
               AsksFor(rules, Plan(w.steps), w, e.jobId, e.request, k)
  {
    EventsTell(rules, run, actions, j, n);
    var e := run[j].db.outbox[n];
    var w := run[j].db.workflows[e.workflowId];
    k :| AsksFor(rules, Plan(w.steps), w, e.jobId, e.request, k);
  }

  /** In every run, crashes included, every request staged for a workflow that was created as an
      audit carries what the inputs and the answers so far say, for one of its steps. */
  lemma RequestsTell(lib: Library, run: seq<System>, actions: seq<Action>, i: nat, j: nat, n: nat, jobs: nat -> Id)
    returns (k: nat)
    requires IsRun(AuditRules(lib), run, actions) && i < j < |run| && actions[i].Create?
    requires forall m, n :: jobs(m) == jobs(n) ==> m == n
    requires forall m :: jobs(m) != ""
    requires MakePlan(lib, actions[i].inputs, jobs) == Some(actions[i].plan)
    requires n < |run[j].db.outbox| && run[j].db.outbox[n].Requested?
    requires run[j].db.outbox[n].workflowId == actions[i].wid
    ensures actions[i].wid in run[j].answers && |actions[i].plan| >= 6
    ensures k < |actions[i].plan| && actions[i].plan[k].jobId == run[j].db.outbox[n].jobId
    ensures RequestFits(lib, actions[i].inputs, actions[i].plan, run[j].answers[actions[i].wid], k,
                        run[j].db.outbox[n].request)
    ensures lib.requestAccepted(run[j].db.outbox[n].jobId, run[j].db.outbox[n].request)
  {
    var rules, wid, plan, inputs := AuditRules(lib), actions[i].wid, actions[i].plan, actions[i].inputs;
    AuditForLife(lib, run, actions, i, j, jobs);
    PlanFits(lib, inputs, jobs);
    k := StepAskedFor(rules, run, actions, j, n);
    var turn := TurnIn(lib, run, actions, i, j, k, jobs);
    SendsMean(lib, inputs, plan, |Competitors(lib, inputs)|, turn, run[j].answers[wid], k,
              run[j].db.outbox[n].request);
  }

  // ---- what is skipped

  /** There is nothing for step `k` of an audit to do. */
  ghost predicate NothingFor(lib: Library, plan: seq<Step>, answers: map<Id, Answer>, k: nat)
    requires |plan| >= 6 && k < |plan|
  {
    match plan[k].kind
    case SerpCheck =>
      WentWell(plan, answers, 1) && forall n :: 0 <= n < |ToldBy(plan, answers, 1).topKeywords| ==>
        lib.strip(ToldBy(plan, answers, 1).topKeywords[n]) == ""
    case LinkAnalysis => OwnCrawl(plan, answers) == ""
    case ContentAnalysis => OwnCrawl(plan, answers) == "" || OwnResearch(plan, answers) == ""
    case OptimizerPlan => OwnCrawl(plan, answers) == ""
    case CompetitorCheck =>
      OwnCrawl(plan, answers) == "" || forall j, id :: 0 <= j < k ==> !CameBack(plan, answers, j, id)
    case _ => false
  }

  lemma NoWorkExactly(lib: Library, inputs: Inputs, plan: seq<Step>, rivals: nat, turn: seq<Step>,
                      answers: map<Id, Answer>, k: nat)
    requires AuditSteps(plan, rivals) && TurnFits(plan, turn, answers, k)
    ensures DispatchEvent(lib, inputs, turn, k).NoWork? <==> NothingFor(lib, plan, answers, k)
  {
    FirstTwo(plan, turn, answers, rivals, k);
    assert DispatchEvent(lib, inputs, turn, k).NoWork? <==> StepParams(lib, inputs, turn, k).NoWork?;
    match plan[k].kind
    case SerpCheck =>
      var limit := Clamp(OrDefault(inputs.trackKeywords, DEFAULT_TRACKED), 1, MAX_TRACKED);
      PickNothing(lib.strip, lib.casefold, ToldBy(plan, answers, 1).topKeywords, {}, limit);
    case CompetitorCheck =>
      var idx := RivalsBack(plan, turn, answers, k, 0);
      assert turn[0..] == turn;
      NoneBack(plan, answers, k, Rivals(turn), idx);
    case _ =>
  }

  lemma NoneBack(plan: seq<Step>, answers: map<Id, Answer>, k: nat, ids: seq<Id>, idx: seq<nat>)
    requires AllBack(plan, answers, 0, k, ids, idx)
    ensures ids == [] <==> forall j, id :: 0 <= j < k ==> !CameBack(plan, answers, j, id)
  {
    if ids != [] {
      assert CameBack(plan, answers, idx[0], ids[0]);
    }
  }

  /** In every run, crashes included, a step of an audit is skipped only if there was nothing for it
      to do, and asked for only if there was something. */
  lemma SkipsTell(lib: Library, run: seq<System>, actions: seq<Action>, i: nat, j: nat, k: nat, jobs: nat -> Id)
    requires IsRun(AuditRules(lib), run, actions) && i < j < |run| && actions[i].Create?
    requires forall m, n :: jobs(m) == jobs(n) ==> m == n
    requires forall m :: jobs(m) != ""
    requires MakePlan(lib, actions[i].inputs, jobs) == Some(actions[i].plan) && k < |actions[i].plan|
    ensures actions[i].wid in run[j].db.workflows && actions[i].wid in run[j].answers && |actions[i].plan| >= 6
    ensures var wid, plan := actions[i].wid, actions[i].plan;
            var steps := run[j].db.workflows[wid].steps;
            && |steps| == |plan|
            && (steps[k].status.Skipped? ==> NothingFor(lib, plan, run[j].answers[wid], k))
            && (Requestable(steps[k]) ==> !NothingFor(lib, plan, run[j].answers[wid], k))
  {
    var wid := actions[i].wid;
    AuditForLife(lib, run, actions, i, j, jobs);
    StepsTell(AuditRules(lib), run, actions, j, wid, k);
    if run[j].db.workflows[wid].steps[k].status != Pending {
      var turn := TurnIn(lib, run, actions, i, j, k, jobs);
      PlanShape(lib, actions[i].inputs, jobs);
      NoWorkExactly(lib, actions[i].inputs, actions[i].plan, |Competitors(lib, actions[i].inputs)|, turn,
                    run[j].answers[wid], k);
    }
  }

  // ---- when the jobs were reported by their own events

  /** The jobs at `idx` are those of the competitor crawls that went well, in order. */
  predicate RivalJobs(plan: seq<Step>, answers: map<Id, Answer>, rivals: seq<Id>, idx: seq<nat>) {
    && |idx| == |rivals| && Ascending(idx)
    && (forall n :: 0 <= n < |idx| ==> idx[n] < |plan| && rivals[n] == plan[idx[n]].jobId)
    && (forall j :: 0 <= j < |plan| ==> (j in idx <==> plan[j].kind.CompetitorCrawl? && WentWell(plan, answers, j)))
  }

  /** The crawl's event says where it started, and the research's event which keywords it found, of
      which the first 25 are kept. */
  ghost predicate SeedFrom(lib: Library, inputs: Inputs, step: Step, a: Answer, seed: string) {
    exists p: Payload :: HonestAnswer(step, p, a) && SeedFits(lib, inputs, p.startUrl, seed)
  }

  ghost predicate KeywordsFrom(lib: Library, inputs: Inputs, step: Step, a: Answer, keywords: seq<string>) {
    exists p: Payload :: HonestAnswer(step, p, a)
      && KeywordsFit(lib, inputs, if |p.topKeywords| > 25 then p.topKeywords[..25] else p.topKeywords, keywords)
  }

  /** A step that was reported by its own event has failed exactly if the event says so, with the
      error it gives. */
  lemma HonestSteps(rules: Rules, inputs: Inputs, plan: seq<Step>, steps: seq<Step>, answers: map<Id, Answer>, k: nat)
    requires k < |steps| == |plan| && StepFits(rules, inputs, plan, steps, answers, k) && Honest(plan, answers)
    requires steps[k].status == Completed || steps[k].status == Failed
    ensures steps[k].jobId in answers
    ensures exists p: Payload ::
              && HonestAnswer(plan[k], p, answers[steps[k].jobId])
              && (steps[k].status == Failed <==> p.failed) && steps[k].error == p.error
  {
    var p :| HonestAnswer(plan[k], p, answers[plan[k].jobId]);
  }

  /** If every job was reported by the event that reports its kind, the requests name the workflow's
      own jobs: the crawl, the research, and the competitors' crawls that went well; and what they
      take over from the first two is what their events said. */
  lemma HonestRequests(lib: Library, inputs: Inputs, plan: seq<Step>, rivals: nat, answers: map<Id, Answer>, k: nat,
                       request: Request)
    requires AuditSteps(plan, rivals) && Honest(plan, answers) && k < |plan|
    requires RequestFits(lib, inputs, plan, answers, k, request)
    ensures match request
            case ResearchRequest(seed, _, _) => SeedFrom(lib, inputs, plan[0], answers[plan[0].jobId], seed)
            case SerpRequest(_, keywords, _, _) => KeywordsFrom(lib, inputs, plan[1], answers[plan[1].jobId], keywords)
            case LinksRequest(crawl) => crawl == plan[0].jobId
            case ContentRequest(crawl, research) => crawl == plan[0].jobId && research == plan[1].jobId
            case OptimizerRequest(crawl, _, study) => crawl == plan[0].jobId && study == Some(plan[1].jobId)
            case ComparisonRequest(crawl, back) =>
              crawl == plan[0].jobId && exists idx: seq<nat> :: RivalJobs(plan, answers, back, idx)
            case _ => true
  {
    if k == 1 {
      var p :| HonestAnswer(plan[0], p, answers[plan[0].jobId]);
    } else if k > 1 {
      HonestId(plan, answers, 0);
      HonestId(plan, answers, 1);
      var p :| HonestAnswer(plan[1], p, answers[plan[1].jobId]);
    }
    if request.ComparisonRequest? {
      var idx: seq<nat> :| AllBack(plan, answers, 0, k, request.rivals, idx);
      HonestRivals(plan, rivals, answers, k, request.rivals, idx);
    }
  }

  lemma HonestId(plan: seq<Step>, answers: map<Id, Answer>, n: nat)
    requires Honest(plan, answers) && n < |plan| && plan[n].jobId in answers && plan[n].jobId != ""
    ensures plan[n].kind.Crawl? || plan[n].kind.CompetitorCrawl? ==>
              answers[plan[n].jobId].result.crawlId == Some(plan[n].jobId)
    ensures plan[n].kind.KeywordResearch? ==> answers[plan[n].jobId].result.researchId == Some(plan[n].jobId)
  {
    var payload :| HonestAnswer(plan[n], payload, answers[plan[n].jobId]);
  }

  lemma HonestRivals(plan: seq<Step>, rivals: nat, answers: map<Id, Answer>, k: nat, ids: seq<Id>, idx: seq<nat>)
    requires AuditSteps(plan, rivals) && Honest(plan, answers) && k == |plan| - 1 && k > 6
    requires AllBack(plan, answers, 0, k, ids, idx)
    ensures RivalJobs(plan, answers, ids, idx)
  {
    forall n | 0 <= n < |idx| ensures idx[n] < |plan| && ids[n] == plan[idx[n]].jobId {
      assert CameBack(plan, answers, idx[n], ids[n]);
      HonestId(plan, answers, idx[n]);
    }
    forall j | 0 <= j < |plan| ensures j in idx <==> plan[j].kind.CompetitorCrawl? && WentWell(plan, answers, j) {
      if plan[j].kind.CompetitorCrawl? && WentWell(plan, answers, j) {
        HonestId(plan, answers, j);
        assert CameBack(plan, answers, j, plan[j].jobId);
      }
      if j in idx {
        var n :| 0 <= n < |idx| && idx[n] == j;
        assert CameBack(plan, answers, idx[n], ids[n]);
      }
    }
  }
}
