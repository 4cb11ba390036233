/** What the depths recorded by a crawl mean: shortest distances in the site's link graph.
  */
module CrawlDistance {
  import opened Crawler
  import opened CrawlLinks

  /** An allowed page that was fetched all right leads to `v`. */
  predicate Edge(site: Site, u: Url, v: Url) {
    site.allowed(u) && site.fetch(u).ok && LinksTo(site, site.fetch(u).links, v)
  }

  /** One click: along a link, or from the start to a sitemap entry. */
  predicate Click(site: Site, cfg: Config, i: nat, u: Url, v: Url) {
    Edge(site, u, v) || (i == 0 && InSitemap(site, cfg, v))
  }

  /** The URLs `p` are a way of `d` clicks from the start to `u`. */
  predicate Leads(site: Site, cfg: Config, p: seq<Url>, u: Url, d: nat) {
    && |p| == d + 1 && p[0] == cfg.start && p[d] == u
    && forall i :: 0 <= i < d ==> ClickAt(site, cfg, p, i)
  }

  predicate ClickAt(site: Site, cfg: Config, p: seq<Url>, i: nat) {
    i + 1 < |p| && Click(site, cfg, i, p[i], p[i + 1])
  }

  ghost predicate Way(site: Site, cfg: Config, u: Url, d: nat) {
    exists p :: Leads(site, cfg, p, u, d)
  }

  lemma WayStart(site: Site, cfg: Config, u: Url)
    ensures Way(site, cfg, u, 0) <==> u == cfg.start
  {
    assert Leads(site, cfg, [cfg.start], cfg.start, 0);
  }

  lemma WayOn(site: Site, cfg: Config, u: Url, d: nat, v: Url)
    requires Way(site, cfg, u, d) && Click(site, cfg, d, u, v)
    ensures Way(site, cfg, v, d + 1)
  {
    var p :| Leads(site, cfg, p, u, d);
    var q := p + [v];
    forall i | 0 <= i < d + 1 ensures ClickAt(site, cfg, q, i) {
      assert i < d ==> ClickAt(site, cfg, p, i);
    }
    assert Leads(site, cfg, q, v, d + 1);
  }

  lemma WayBack(site: Site, cfg: Config, v: Url, d: nat) returns (u: Url)
    requires Way(site, cfg, v, d + 1)
    ensures Way(site, cfg, u, d) && Click(site, cfg, d, u, v)
  {
    var p :| Leads(site, cfg, p, v, d + 1);
    u := p[d];
    assert ClickAt(site, cfg, p, d);
    var q := p[..d + 1];
    forall i | 0 <= i < d ensures ClickAt(site, cfg, q, i) {
      assert ClickAt(site, cfg, p, i);
    }
    assert Leads(site, cfg, q, u, d);
  }

  ghost predicate Distance(site: Site, cfg: Config, u: Url, d: nat) {
    Way(site, cfg, u, d) && forall e: nat :: e < d ==> !Way(site, cfg, u, e)
  }

  // ---- the invariant of the one-at-a-time crawl

  /** The depth every URL was queued at. */
  type Marks = map<Url, nat>

  predicate Waiting(s: State, m: Marks, u: Url)
    requires u in m
  {
    Item(u, m[u]) in s.frontier
  }

  predicate Sorted(items: seq<Item>) {
    forall j, k :: 0 <= j < k < |items| ==> items[j].depth <= items[k].depth <= items[j].depth + 1
  }

  predicate DistinctUrls(items: seq<Item>) {
    forall j, k :: 0 <= j < k < |items| ==> items[j].url != items[k].url
  }

  predicate Marked(items: seq<Item>, m: Marks) {
    forall k :: 0 <= k < |items| ==> items[k].url in m && m[items[k].url] == items[k].depth
  }

  /** What has been taken off the frontier was fetched if it could be, once. */
  predicate PagesFit(site: Site, cfg: Config, s: State, m: Marks) {
    && Marked(s.pages, m) && DistinctUrls(s.pages)
    && (forall k :: 0 <= k < |s.pages| ==> Fetchable(site, cfg, s.pages[k]) && s.pages[k] !in s.frontier)
    && (forall u :: u in m && !Waiting(s, m, u) && Fetchable(site, cfg, Item(u, m[u])) ==> Item(u, m[u]) in s.pages)
  }

  /** A page that was taken and expanded has had all its targets queued, at most one level below.
      The page `except` may still be in the middle of that. */
  ghost predicate Closed(site: Site, cfg: Config, s: State, m: Marks, except: set<Url>) {
    forall u, v :: u in m && u !in except && !Waiting(s, m, u) && m[u] < cfg.maxDepth && Edge(site, u, v) ==>
      v in m && m[v] <= m[u] + 1
  }

  /** Depths are distances, and the places a crawl begins at are marked. */
  ghost predicate Exact(site: Site, cfg: Config, m: Marks) {
    && cfg.start in m && m[cfg.start] == 0
    && (forall u :: InSitemap(site, cfg, u) ==> u in m && m[u] <= 1)
    && (forall u :: u in m ==> Distance(site, cfg, u, m[u]))
  }

  /** Every URL with a way of length up to `d` is queued. */
  ghost predicate Reached(site: Site, cfg: Config, m: Marks, d: nat) {
    forall e: nat, u :: e <= d && Way(site, cfg, u, e) ==> u in m && m[u] <= e
  }

  predicate Orderly(site: Site, cfg: Config, s: State, m: Marks) {
    && s.queued == m.Keys
    && Marked(s.frontier, m) && DistinctUrls(s.frontier) && Sorted(s.frontier)
    && PagesFit(site, cfg, s, m)
  }

  ghost predicate Basics(site: Site, cfg: Config, s: State, m: Marks, except: set<Url>) {
    Orderly(site, cfg, s, m) && Closed(site, cfg, s, m, except) && Exact(site, cfg, m)
  }

  function Level(cfg: Config, s: State): nat {
    if s.frontier != [] && s.frontier[0].depth <= cfg.maxDepth then s.frontier[0].depth else cfg.maxDepth
  }

  ghost predicate Inv(site: Site, cfg: Config, s: State, m: Marks) {
    Basics(site, cfg, s, m, {}) && Reached(site, cfg, m, Level(cfg, s))
  }

  // ---- queueing one level below the page being expanded

  function Added(s: State, v: Url, d: nat): State {
    s.(frontier := s.frontier + [Item(v, d)], queued := s.queued + {v})
  }

  predicate Between(items: seq<Item>, d: nat) {
    forall k :: 0 <= k < |items| ==> d <= items[k].depth <= d + 1
  }

  lemma AddedOrderly(site: Site, cfg: Config, s: State, m: Marks, v: Url, d: nat)
    requires Orderly(site, cfg, s, m) && v !in m && Between(s.frontier, d)
    ensures Orderly(site, cfg, Added(s, v, d + 1), m[v := d + 1]) && Between(Added(s, v, d + 1).frontier, d)
  {
    AddedPages(site, cfg, s, m, v, d);
  }

  lemma AddedWaits(s: State, m: Marks, v: Url, d: nat, x: Url)
    requires x in m && v !in m
    ensures Waiting(Added(s, v, d), m[v := d], x) == Waiting(s, m, x)
  {
  }

  lemma AddedPages(site: Site, cfg: Config, s: State, m: Marks, v: Url, d: nat)
    requires PagesFit(site, cfg, s, m) && v !in m
    ensures PagesFit(site, cfg, Added(s, v, d + 1), m[v := d + 1])
  {
    var t, n := Added(s, v, d + 1), m[v := d + 1];
    assert t.frontier[|s.frontier|] == Item(v, d + 1);
    forall x | x in n && !Waiting(t, n, x) && Fetchable(site, cfg, Item(x, n[x])) ensures Item(x, n[x]) in t.pages {
      assert x != v;
      assert !Waiting(s, m, x);
    }
  }

  lemma AddedClosed(site: Site, cfg: Config, s: State, m: Marks, v: Url, d: nat, except: set<Url>)
    requires Closed(site, cfg, s, m, except) && v !in m
    ensures Closed(site, cfg, Added(s, v, d), m[v := d], except)
  {
    var t, n := Added(s, v, d), m[v := d];
    assert t.frontier[|s.frontier|] == Item(v, d);
    forall x, y | x in n && x !in except && !Waiting(t, n, x) && n[x] < cfg.maxDepth && Edge(site, x, y)
      ensures y in n && n[y] <= n[x] + 1
    {
      assert x != v;
      assert !Waiting(s, m, x);
    }
  }

  /** A new target of the page being expanded is exactly one level further than the page. */
  lemma NewIsExact(site: Site, cfg: Config, m: Marks, u: Url, v: Url)
    requires u in m && v !in m && Exact(site, cfg, m) && Reached(site, cfg, m, m[u]) && Edge(site, u, v)
    ensures Distance(site, cfg, v, m[u] + 1)
  {
    assert Distance(site, cfg, u, m[u]);
    WayOn(site, cfg, u, m[u], v);
  }

  lemma AddedExact(site: Site, cfg: Config, m: Marks, v: Url, d: nat)
    requires Exact(site, cfg, m) && v !in m && Distance(site, cfg, v, d)
    ensures Exact(site, cfg, m[v := d])
  {
    var n := m[v := d];
    forall x | x in n ensures Distance(site, cfg, x, n[x]) {
      if x != v {
        assert Distance(site, cfg, x, m[x]);
      }
    }
  }

  lemma ReachedGrows(site: Site, cfg: Config, m: Marks, v: Url, d: nat, e: nat)
    requires Reached(site, cfg, m, e) && v !in m
    ensures Reached(site, cfg, m[v := d], e)
  {
    forall f: nat, x | f <= e && Way(site, cfg, x, f) ensures x in m[v := d] && m[v := d][x] <= f {
      assert x in m && m[x] <= f;
    }
  }

  /** A target that is already queued is at most one level below. */
  lemma QueuedNear(site: Site, cfg: Config, m: Marks, u: Url, v: Url)
    requires u in m && v in m && Exact(site, cfg, m) && Edge(site, u, v)
    ensures m[v] <= m[u] + 1
  {
    assert Distance(site, cfg, u, m[u]) && Distance(site, cfg, v, m[v]);
    WayOn(site, cfg, u, m[u], v);
  }

  /** Where expanding page `u` stands. */
  ghost predicate Expanding(site: Site, cfg: Config, s: State, m: Marks, u: Url) {
    && u in m && Basics(site, cfg, s, m, {u}) && Reached(site, cfg, m, m[u])
    && !Waiting(s, m, u) && Between(s.frontier, m[u])
  }

  lemma AddTarget(site: Site, cfg: Config, s: State, m: Marks, u: Url, v: Url, d: nat)
    requires ExpandingAt(site, cfg, s, m, u, d) && Edge(site, u, v) && v !in s.queued
    ensures ExpandingAt(site, cfg, Added(s, v, d + 1), m[v := d + 1], u, d)
  {
    AddedOrderly(site, cfg, s, m, v, d);
    AddedWaits(s, m, v, d + 1, u);
    AddedClosed(site, cfg, s, m, v, d + 1, {u});
    NewIsExact(site, cfg, m, u, v);
    AddedExact(site, cfg, m, v, d + 1);
    ReachedGrows(site, cfg, m, v, d + 1, d);
  }

  /** Whatever survives queueing one new URL survives queueing a list of them. */
  lemma {:induction false} EnqueueAll(rule: (State, Marks) -> bool, s: State, m: Marks, urls: seq<Url>, d: nat)
    returns (n: Marks)
    requires rule(s, m)
    requires forall t, q :: rule(t, q) ==> t.queued == q.Keys
    requires forall t, q, v :: rule(t, q) && v in urls && v !in t.queued ==> rule(Added(t, v, d), q[v := d])
    ensures rule(Enqueue(s, urls, d), n)
    ensures forall v :: v in m ==> v in n && n[v] == m[v]
    ensures forall v :: v in urls ==> v in n
    decreases |urls|
  {
    if urls == [] {
      n := m;
    } else {
      assert forall v :: v in urls[1..] ==> v in urls;
      if urls[0] in s.queued {
        n := EnqueueAll(rule, s, m, urls[1..], d);
      } else {
        n := EnqueueAll(rule, Added(s, urls[0], d), m[urls[0] := d], urls[1..], d);
      }
      assert urls[0] in n;
      assert urls == [urls[0]] + urls[1..];
    }
  }

  ghost predicate ExpandingAt(site: Site, cfg: Config, s: State, m: Marks, u: Url, d: nat) {
    Expanding(site, cfg, s, m, u) && m[u] == d
  }

  ghost function ExpandingRule(site: Site, cfg: Config, u: Url, d: nat): (State, Marks) -> bool {
    (t: State, q: Marks) => ExpandingAt(site, cfg, t, q, u, d)
  }

  lemma RuleAdds(site: Site, cfg: Config, u: Url, d: nat, t: State, q: Marks, v: Url)
    requires ExpandingRule(site, cfg, u, d)(t, q) && Edge(site, u, v) && v !in t.queued
    ensures ExpandingRule(site, cfg, u, d)(Added(t, v, d + 1), q[v := d + 1])
  {
    AddTarget(site, cfg, t, q, u, v, d);
  }

  lemma QueueBelow(site: Site, cfg: Config, s: State, m: Marks, u: Url, urls: seq<Url>, d: nat) returns (n: Marks)
    requires ExpandingRule(site, cfg, u, d)(s, m)
    requires forall v :: v in urls ==> Edge(site, u, v)
    ensures ExpandingRule(site, cfg, u, d)(Enqueue(s, urls, d + 1), n)
    ensures forall v :: v in urls ==> v in n
  {
    var rule := ExpandingRule(site, cfg, u, d);
    forall t, q, v | rule(t, q) && v in urls && v !in t.queued ensures rule(Added(t, v, d + 1), q[v := d + 1]) {
      RuleAdds(site, cfg, u, d, t, q, v);
    }
    forall t, q | rule(t, q) ensures t.queued == q.Keys {
      QueuedAreMarked(site, cfg, t, q, u, d);
    }
    n := EnqueueAll(rule, s, m, urls, d + 1);
  }

  lemma QueuedAreMarked(site: Site, cfg: Config, s: State, m: Marks, u: Url, d: nat)
    requires ExpandingAt(site, cfg, s, m, u, d)
    ensures s.queued == m.Keys
  {
  }

  // ---- taking the first URL off the frontier

  function Taken(site: Site, cfg: Config, s: State): State
    requires s.frontier != []
  {
    var item, rest := s.frontier[0], s.(frontier := s.frontier[1..]);
    if Fetchable(site, cfg, item) then rest.(pages := s.pages + [item]) else Discard(cfg, rest, item)
  }

  lemma TakenWaits(site: Site, cfg: Config, s: State, m: Marks)
    requires s.frontier != [] && Marked(s.frontier, m) && DistinctUrls(s.frontier)
    ensures var t, u := Taken(site, cfg, s), s.frontier[0].url;
            && u in m && Waiting(s, m, u) && !Waiting(t, m, u)
            && forall x :: x in m && x != u ==> Waiting(t, m, x) == Waiting(s, m, x)
  {
    var t, u := Taken(site, cfg, s), s.frontier[0].url;
    assert s.frontier == [s.frontier[0]] + t.frontier;
    assert s.frontier[0] in s.frontier;
  }

  lemma TakenOrderly(site: Site, cfg: Config, s: State, m: Marks)
    requires Orderly(site, cfg, s, m) && s.frontier != []
    ensures Orderly(site, cfg, Taken(site, cfg, s), m) && Between(Taken(site, cfg, s).frontier, s.frontier[0].depth)
  {
    TakenPages(site, cfg, s, m);
    var t := Taken(site, cfg, s);
    assert forall k :: 0 <= k < |t.frontier| ==> t.frontier[k] == s.frontier[k + 1];
  }

  lemma TakenPages(site: Site, cfg: Config, s: State, m: Marks)
    requires PagesFit(site, cfg, s, m) && s.frontier != [] && Marked(s.frontier, m) && DistinctUrls(s.frontier)
    ensures PagesFit(site, cfg, Taken(site, cfg, s), m)
  {
    var t, item := Taken(site, cfg, s), s.frontier[0];
    TakenWaits(site, cfg, s, m);
    assert s.frontier == [item] + t.frontier;
    assert item !in t.frontier;
    forall k | 0 <= k < |s.pages| ensures s.pages[k].url != item.url && s.pages[k] !in t.frontier {
      assert s.pages[k] !in s.frontier && item in s.frontier;
    }
    forall x | x in m && !Waiting(t, m, x) && Fetchable(site, cfg, Item(x, m[x])) ensures Item(x, m[x]) in t.pages {
      if x == item.url {
        assert t.pages[|s.pages|] == item;
      }
    }
  }

  lemma TakenClosed(site: Site, cfg: Config, s: State, m: Marks)
    requires Closed(site, cfg, s, m, {}) && s.frontier != [] && Marked(s.frontier, m) && DistinctUrls(s.frontier)
    ensures Closed(site, cfg, Taken(site, cfg, s), m, {s.frontier[0].url})
  {
    TakenWaits(site, cfg, s, m);
  }

  /** Once everything up to level `d` has been taken, level `d + 1` is complete. */
  lemma NextLevel(site: Site, cfg: Config, s: State, m: Marks, d: nat)
    requires Basics(site, cfg, s, m, {}) && Reached(site, cfg, m, d) && d < cfg.maxDepth
    requires forall k :: 0 <= k < |s.frontier| ==> s.frontier[k].depth > d
    ensures Reached(site, cfg, m, d + 1)
  {
    forall e: nat, u | e <= d + 1 && Way(site, cfg, u, e) ensures u in m && m[u] <= e {
      if e == d + 1 && !(e == 1 && InSitemap(site, cfg, u)) {
        var v := WayBack(site, cfg, u, d);
        assert v in m && m[v] <= d;
        assert !Waiting(s, m, v);
      }
    }
  }

  lemma {:induction false} AllLevels(site: Site, cfg: Config, s: State, m: Marks, d: nat)
    requires Basics(site, cfg, s, m, {}) && Reached(site, cfg, m, d) && d <= cfg.maxDepth && s.frontier == []
    ensures Reached(site, cfg, m, cfg.maxDepth)
    decreases cfg.maxDepth - d
  {
    if d < cfg.maxDepth {
      NextLevel(site, cfg, s, m, d);
      AllLevels(site, cfg, s, m, d + 1);
    }
  }

  /** The level of the frontier never gets ahead of what has been reached. */
  lemma Settle(site: Site, cfg: Config, s: State, m: Marks, d: nat)
    requires Basics(site, cfg, s, m, {}) && Reached(site, cfg, m, d) && Between(s.frontier, d)
    ensures Inv(site, cfg, s, m)
  {
    if d >= cfg.maxDepth {
    } else if s.frontier == [] {
      AllLevels(site, cfg, s, m, d);
    } else if s.frontier[0].depth == d + 1 {
      NextLevel(site, cfg, s, m, d);
    }
  }

  lemma CloseUp(site: Site, cfg: Config, s: State, m: Marks, u: Url)
    requires u in m && Basics(site, cfg, s, m, {u})
    requires forall v :: m[u] < cfg.maxDepth && Edge(site, u, v) ==> v in m
    ensures Basics(site, cfg, s, m, {})
  {
    forall v | m[u] < cfg.maxDepth && Edge(site, u, v) ensures m[v] <= m[u] + 1 {
      QueuedNear(site, cfg, m, u, v);
    }
  }

  lemma VisitKeeps(site: Site, cfg: Config, s: State, m: Marks) returns (n: Marks)
    requires Inv(site, cfg, s, m) && s.frontier != [] && Fetchable(site, cfg, s.frontier[0])
    ensures Inv(site, cfg, Step(site, cfg, s), n)
  {
    var item := s.frontier[0];
    var t := Taken(site, cfg, s);
    TakenExpanding(site, cfg, s, m);
    if Expands(site, cfg, item) {
      n := ExpandKeeps(site, cfg, t, m, item);
    } else {
      n := m;
      StayKeeps(site, cfg, t, m, item);
    }
  }

  /** A page taken off the frontier is about to be expanded. */
  lemma TakenExpanding(site: Site, cfg: Config, s: State, m: Marks)
    requires Inv(site, cfg, s, m) && s.frontier != [] && Fetchable(site, cfg, s.frontier[0])
    ensures ExpandingAt(site, cfg, Taken(site, cfg, s), m, s.frontier[0].url, s.frontier[0].depth)
  {
    TakenWaits(site, cfg, s, m);
    TakenOrderly(site, cfg, s, m);
    TakenClosed(site, cfg, s, m);
  }

  lemma StayKeeps(site: Site, cfg: Config, t: State, m: Marks, item: Item)
    requires ExpandingAt(site, cfg, t, m, item.url, item.depth)
    requires !Expands(site, cfg, item) && item.depth <= cfg.maxDepth
    ensures Inv(site, cfg, t, m)
  {
    CloseUp(site, cfg, t, m, item.url);
    Settle(site, cfg, t, m, item.depth);
  }

  lemma ExpandKeeps(site: Site, cfg: Config, t: State, m: Marks, item: Item) returns (n: Marks)
    requires ExpandingAt(site, cfg, t, m, item.url, item.depth)
    requires Expands(site, cfg, item) && site.allowed(item.url)
    ensures Inv(site, cfg, Enqueue(t, Targets(site, site.fetch(item.url).links), item.depth + 1), n)
  {
    var urls := Targets(site, site.fetch(item.url).links);
    forall v ensures v in urls <==> LinksTo(site, site.fetch(item.url).links, v) {
      TargetsAre(site, site.fetch(item.url).links, v);
    }
    n := QueueBelow(site, cfg, t, m, item.url, urls, item.depth);
    var after := Enqueue(t, urls, item.depth + 1);
    CloseUp(site, cfg, after, n, item.url);
    Settle(site, cfg, after, n, item.depth);
  }

  lemma DiscardKeeps(site: Site, cfg: Config, s: State, m: Marks)
    requires Inv(site, cfg, s, m) && s.frontier != [] && !Fetchable(site, cfg, s.frontier[0])
    ensures Inv(site, cfg, Step(site, cfg, s), m)
  {
    var item := s.frontier[0];
    var t := Taken(site, cfg, s);
    TakenWaits(site, cfg, s, m);
    TakenOrderly(site, cfg, s, m);
    TakenClosed(site, cfg, s, m);
    CloseUp(site, cfg, t, m, item.url);
    if item.depth <= cfg.maxDepth {
      Settle(site, cfg, t, m, item.depth);
    }
  }

  // ---- how a crawl begins

  lemma StartKeeps(site: Site, cfg: Config)
    ensures var s := State([Item(cfg.start, 0)], {cfg.start}, [], []);
            Orderly(site, cfg, s, map[cfg.start := 0]) && Distance(site, cfg, cfg.start, 0)
  {
    assert [Item(cfg.start, 0)][0] == Item(cfg.start, 0);
    WayStart(site, cfg, cfg.start);
  }

  /** Where seeding the frontier stands: nothing taken yet, every depth exact. */
  ghost predicate Seeding(site: Site, cfg: Config, s: State, m: Marks) {
    Opening(site, cfg, s, m) && AllWait(site, cfg, s, m)
  }

  predicate Opening(site: Site, cfg: Config, s: State, m: Marks) {
    && Orderly(site, cfg, s, m) && Between(s.frontier, 0)
    && s.frontier != [] && s.frontier[0] == Item(cfg.start, 0)
    && cfg.start in m
  }

  ghost predicate AllWait(site: Site, cfg: Config, s: State, m: Marks) {
    forall u :: u in m ==> Waiting(s, m, u) && Distance(site, cfg, u, m[u])
  }

  lemma SeedOne(site: Site, cfg: Config, s: State, m: Marks, v: Url)
    requires Seeding(site, cfg, s, m) && InSitemap(site, cfg, v) && v !in s.queued
    ensures Seeding(site, cfg, Added(s, v, 1), m[v := 1])
  {
    SeedWaits(site, cfg, s, m, v);
    SeedOpening(site, cfg, s, m, v);
  }

  lemma SeedOpening(site: Site, cfg: Config, s: State, m: Marks, v: Url)
    requires Opening(site, cfg, s, m) && v !in m
    ensures Opening(site, cfg, Added(s, v, 1), m[v := 1])
  {
    SeedOrderly(site, cfg, s, m, v);
    SeedStays(s, v, Item(cfg.start, 0));
  }

  lemma SeedOrderly(site: Site, cfg: Config, s: State, m: Marks, v: Url)
    requires Orderly(site, cfg, s, m) && v !in m && Between(s.frontier, 0)
    ensures Orderly(site, cfg, Added(s, v, 1), m[v := 1]) && Between(Added(s, v, 1).frontier, 0)
  {
    AddedOrderly(site, cfg, s, m, v, 0);
  }

  lemma SeedStays(s: State, v: Url, item: Item)
    requires s.frontier != [] && s.frontier[0] == item
    ensures Added(s, v, 1).frontier != [] && Added(s, v, 1).frontier[0] == item
  {
  }

  lemma SeedWaits(site: Site, cfg: Config, s: State, m: Marks, v: Url)
    requires cfg.start in m && InSitemap(site, cfg, v) && v !in m
    requires AllWait(site, cfg, s, m)
    ensures AllWait(site, cfg, Added(s, v, 1), m[v := 1])
  {
    var t, n := Added(s, v, 1), m[v := 1];
    SeedDistance(site, cfg, v);
    forall u | u in n ensures Waiting(t, n, u) && Distance(site, cfg, u, n[u]) {
      assert u != v ==> Waiting(s, m, u) && Distance(site, cfg, u, m[u]);
      WaitsWith(s, m, v, u);
    }
  }

  /** Queueing `v` makes it wait, and whoever waited still does. */
  lemma WaitsWith(s: State, m: Marks, v: Url, u: Url)
    requires u == v || (u in m && Waiting(s, m, u))
    ensures Waiting(Added(s, v, 1), m[v := 1], u)
  {
    var t := Added(s, v, 1);
    if u == v {
      assert t.frontier[|s.frontier|] == Item(v, 1);
    } else {
      var k :| 0 <= k < |s.frontier| && s.frontier[k] == Item(u, m[u]);
      assert t.frontier[k] == s.frontier[k];
    }
  }

  lemma SeedDistance(site: Site, cfg: Config, v: Url)
    requires InSitemap(site, cfg, v)
    ensures v != cfg.start ==> Distance(site, cfg, v, 1)
  {
    WayStart(site, cfg, cfg.start);
    WayStart(site, cfg, v);
    WayOn(site, cfg, cfg.start, 0, v);
  }

  lemma SeedNear(site: Site, cfg: Config, m: Marks, v: Url)
    requires v in m && InSitemap(site, cfg, v) && Distance(site, cfg, v, m[v])
    ensures m[v] <= 1
  {
    WayStart(site, cfg, cfg.start);
    WayOn(site, cfg, cfg.start, 0, v);
  }

  lemma InitialKeeps(site: Site, cfg: Config) returns (m: Marks)
    ensures Inv(site, cfg, Initial(site, cfg), m) && Initial(site, cfg).pages == []
  {
    var s := State([Item(cfg.start, 0)], {cfg.start}, [], []);
    var seeds := Seeds(site, Head(cfg.sitemap, cfg.maxPages));
    EnqueuePages(s, seeds, 1);
    forall v ensures v in seeds <==> InSitemap(site, cfg, v) {
      SitemapAre(site, cfg, v);
    }
    StartKeeps(site, cfg);
    var rule := (t: State, q: Marks) => Seeding(site, cfg, t, q);
    forall t, q, v | rule(t, q) && v in seeds && v !in t.queued ensures rule(Added(t, v, 1), q[v := 1]) {
      SeedOne(site, cfg, t, q, v);
    }
    assert s.frontier[0] == Item(cfg.start, 0);
    assert rule(s, map[cfg.start := 0]);
    m := EnqueueAll(rule, s, map[cfg.start := 0], seeds, 1);
    SeededFits(site, cfg, Initial(site, cfg), m);
  }

  lemma SeededFits(site: Site, cfg: Config, s: State, m: Marks)
    requires Seeding(site, cfg, s, m) && cfg.start in m && m[cfg.start] == 0
    requires forall u :: InSitemap(site, cfg, u) ==> u in m
    ensures Inv(site, cfg, s, m)
  {
    forall u | InSitemap(site, cfg, u) ensures m[u] <= 1 {
      assert Distance(site, cfg, u, m[u]);
      SeedNear(site, cfg, m, u);
    }
    forall u ensures Way(site, cfg, u, 0) <==> u == cfg.start {
      WayStart(site, cfg, u);
    }
    assert Reached(site, cfg, m, 0);
  }

  // ---- whole crawls

  lemma {:induction false} FifoKeeps(site: Site, cfg: Config, s: State, m: Marks) returns (n: Marks)
    requires Inv(site, cfg, s, m) && |s.pages| <= cfg.maxPages
    ensures Inv(site, cfg, Fifo(site, cfg, s), n)
    ensures |Fifo(site, cfg, s).pages| <= cfg.maxPages
    ensures Fifo(site, cfg, s).frontier == [] || |Fifo(site, cfg, s).pages| == cfg.maxPages
    decreases cfg.maxPages - |s.pages|, |s.frontier|
  {
    if s.frontier == [] || |s.pages| >= cfg.maxPages {
      n := m;
    } else {
      n := StepKeeps(site, cfg, s, m);
      n := FifoKeeps(site, cfg, Step(site, cfg, s), n);
    }
  }

  /** Every page is recorded once, and its depth is its distance from the start. */
  lemma DepthsAreDistances(site: Site, cfg: Config)
    ensures var pages := Crawl(site, cfg).pages;
            && DistinctUrls(pages)
            && (forall k :: 0 <= k < |pages| ==> Distance(site, cfg, pages[k].url, pages[k].depth))
  {
    var m := InitialKeeps(site, cfg);
    var n := FifoKeeps(site, cfg, Initial(site, cfg), m);
  }

  lemma FetchedIsNear(site: Site, cfg: Config, s: State, m: Marks, u: Url, d: nat)
    requires Inv(site, cfg, s, m) && Item(u, d) in s.pages
    ensures site.allowed(u) && d <= cfg.maxDepth && Way(site, cfg, u, d)
  {
    var k :| 0 <= k < |s.pages| && s.pages[k] == Item(u, d);
    assert Fetchable(site, cfg, s.pages[k]);
    assert u in m && m[u] == d && Distance(site, cfg, u, d);
  }

  lemma NearIsFetched(site: Site, cfg: Config, s: State, m: Marks, u: Url, d: nat)
    requires Inv(site, cfg, s, m) && s.frontier == []
    requires site.allowed(u) && d <= cfg.maxDepth && Way(site, cfg, u, d)
    ensures u in m && Item(u, m[u]) in s.pages
  {
    assert u in m && m[u] <= d;
    assert !Waiting(s, m, u);
    assert Fetchable(site, cfg, Item(u, m[u]));
  }

  ghost predicate Fetched(s: State, u: Url) {
    exists d: nat :: Item(u, d) in s.pages
  }

  ghost predicate WithinReach(site: Site, cfg: Config, u: Url) {
    exists d: nat :: d <= cfg.maxDepth && Way(site, cfg, u, d)
  }

  /** A crawl that runs out of URLs has fetched exactly the allowed ones within the depth limit. */
  lemma CrawlIsComplete(site: Site, cfg: Config, u: Url)
    requires Crawl(site, cfg).frontier == []
    ensures Fetched(Crawl(site, cfg), u) <==> site.allowed(u) && WithinReach(site, cfg, u)
  {
    var m := InitialKeeps(site, cfg);
    var n := FifoKeeps(site, cfg, Initial(site, cfg), m);
    var s := Crawl(site, cfg);
    if Fetched(s, u) {
      var d: nat :| Item(u, d) in s.pages;
      FetchedIsNear(site, cfg, s, n, u, d);
    }
    if site.allowed(u) && WithinReach(site, cfg, u) {
      var d: nat :| d <= cfg.maxDepth && Way(site, cfg, u, d);
      NearIsFetched(site, cfg, s, n, u, d);
    }
  }

  /** A crawl stops only when it has run out of URLs or has its fill of pages. */
  lemma StopsForAReason(site: Site, cfg: Config)
    ensures |Crawl(site, cfg).pages| <= cfg.maxPages
    ensures Crawl(site, cfg).frontier == [] || |Crawl(site, cfg).pages| == cfg.maxPages
  {
    var m := InitialKeeps(site, cfg);
    var n := FifoKeeps(site, cfg, Initial(site, cfg), m);
  }

  // ---- nearest first

  /** Pages come in order of depth, and none lies deeper than what is still to be taken. */
  predicate NearestFirst(s: State) {
    && (forall j, k :: 0 <= j < k < |s.pages| ==> s.pages[j].depth <= s.pages[k].depth)
    && (s.frontier != [] ==> forall k :: 0 <= k < |s.pages| ==> s.pages[k].depth <= s.frontier[0].depth)
  }

  /** Queueing keeps the first URL to be taken, or makes a new one first. */
  lemma {:induction false} EnqueueFirst(s: State, urls: seq<Url>, d: nat)
    ensures var t := Enqueue(s, urls, d);
            && (s.frontier != [] ==> t.frontier != [] && t.frontier[0] == s.frontier[0])
            && (s.frontier == [] && t.frontier != [] ==> t.frontier[0].depth == d)
    decreases |urls|
  {
    if urls != [] {
      if urls[0] in s.queued {
        EnqueueFirst(s, urls[1..], d);
      } else {
        EnqueueFirst(Added(s, urls[0], d), urls[1..], d);
      }
    }
  }

  lemma StepNearestFirst(site: Site, cfg: Config, s: State)
    requires NearestFirst(s) && s.frontier != [] && Sorted(s.frontier)
    ensures NearestFirst(Step(site, cfg, s))
  {
    var item, rest := s.frontier[0], s.(frontier := s.frontier[1..]);
    if Fetchable(site, cfg, item) {
      var taken := rest.(pages := s.pages + [item]);
      var urls := Targets(site, site.fetch(item.url).links);
      EnqueuePages(taken, urls, item.depth + 1);
      EnqueueFirst(taken, urls, item.depth + 1);
    }
  }

  lemma {:induction false} FifoNearestFirst(site: Site, cfg: Config, s: State, m: Marks) returns (n: Marks)
    requires Inv(site, cfg, s, m) && |s.pages| <= cfg.maxPages && NearestFirst(s)
    ensures Inv(site, cfg, Fifo(site, cfg, s), n) && NearestFirst(Fifo(site, cfg, s))
    decreases cfg.maxPages - |s.pages|, |s.frontier|
  {
    if s.frontier == [] || |s.pages| >= cfg.maxPages {
      n := m;
    } else {
      StepNearestFirst(site, cfg, s);
      n := StepKeeps(site, cfg, s, m);
      n := FifoNearestFirst(site, cfg, Step(site, cfg, s), n);
    }
  }

  lemma StepKeeps(site: Site, cfg: Config, s: State, m: Marks) returns (n: Marks)
    requires Inv(site, cfg, s, m) && s.frontier != []
    ensures Inv(site, cfg, Step(site, cfg, s), n)
    ensures var t := Step(site, cfg, s);
            if Fetchable(site, cfg, s.frontier[0]) then |t.pages| == |s.pages| + 1
            else t.pages == s.pages && |t.frontier| < |s.frontier|
  {
    var item := s.frontier[0];
    if Fetchable(site, cfg, item) {
      VisitPages(site, cfg, s.(frontier := s.frontier[1..]), item);
      n := VisitKeeps(site, cfg, s, m);
    } else {
      DiscardKeeps(site, cfg, s, m);
      n := m;
    }
  }

  /** Whatever is nearer than a page that was fetched, and allowed, was fetched too. */
  lemma NearerIsFetched(site: Site, cfg: Config, s: State, m: Marks, k: nat, u: Url, e: nat)
    requires Inv(site, cfg, s, m) && NearestFirst(s) && k < |s.pages|
    requires site.allowed(u) && Way(site, cfg, u, e) && e < s.pages[k].depth
    ensures Fetched(s, u)
  {
    var d := s.pages[k].depth;
    assert Fetchable(site, cfg, s.pages[k]);
    if s.frontier == [] {
      NearIsFetched(site, cfg, s, m, u, e);
    } else {
      assert d <= Level(cfg, s);
      assert u in m && m[u] <= e;
      NotWaitingYet(s, m, u);
      assert Fetchable(site, cfg, Item(u, m[u]));
    }
  }

  lemma NotWaitingYet(s: State, m: Marks, u: Url)
    requires s.frontier != [] && Sorted(s.frontier) && u in m && m[u] < s.frontier[0].depth
    ensures !Waiting(s, m, u)
  {
  }

  /** A crawl takes the nearest pages, also when it is cut short by the page limit: they are recorded
      in order of their distance, and every allowed URL nearer than some page was fetched as well. */
  lemma NearestPagesFirst(site: Site, cfg: Config)
    ensures var pages := Crawl(site, cfg).pages;
            && (forall j, k :: 0 <= j < k < |pages| ==> pages[j].depth <= pages[k].depth)
            && (forall k, u, e: nat ::
                  0 <= k < |pages| && site.allowed(u) && e < pages[k].depth && Way(site, cfg, u, e) ==>
                  Fetched(Crawl(site, cfg), u))
  {
    var m := InitialKeeps(site, cfg);
    var n := FifoNearestFirst(site, cfg, Initial(site, cfg), m);
    var s := Crawl(site, cfg);
    forall k, u, e: nat | 0 <= k < |s.pages| && site.allowed(u) && e < s.pages[k].depth && Way(site, cfg, u, e)
      ensures Fetched(s, u)
    {
      NearerIsFetched(site, cfg, s, n, k, u, e);
    }
  }

  // ---- what is refused

  /** Still to be taken. */
  predicate Left(s: State, u: Url) {
    exists k :: 0 <= k < |s.frontier| && s.frontier[k].url == u
  }

  /** Taken within the depth limit, and not allowed. */
  ghost predicate Refused(site: Site, cfg: Config, s: State, u: Url) {
    u in s.queued && !Left(s, u) && !site.allowed(u) && WithinReach(site, cfg, u)
  }

  ghost predicate BlockedFit(site: Site, cfg: Config, s: State) {
    && (forall j, k :: 0 <= j < k < |s.blocked| ==> s.blocked[j] != s.blocked[k])
    && (forall u :: u in s.blocked <==> Refused(site, cfg, s, u))
  }

  /** Queueing takes nothing off the frontier, and what is queued is left to be taken. */
  lemma {:induction false} EnqueueLeaves(s: State, urls: seq<Url>, d: nat, u: Url)
    ensures var t := Enqueue(s, urls, d);
            u in t.queued && !Left(t, u) <==> u in s.queued && !Left(s, u)
    decreases |urls|
  {
    if urls != [] {
      if urls[0] in s.queued {
        EnqueueLeaves(s, urls[1..], d, u);
      } else {
        EnqueueLeaves(Added(s, urls[0], d), urls[1..], d, u);
        AddedLeaves(s, urls[0], d, u);
      }
    }
  }

  lemma AddedLeaves(s: State, v: Url, d: nat, u: Url)
    requires v !in s.queued
    ensures var t := Added(s, v, d);
            u in t.queued && !Left(t, u) <==> u in s.queued && !Left(s, u)
  {
    var t := Added(s, v, d);
    assert t.frontier[|s.frontier|].url == v;
    if Left(s, u) {
      var k :| 0 <= k < |s.frontier| && s.frontier[k].url == u;
      assert t.frontier[k].url == u;
    }
  }

  lemma RestLeaves(s: State, u: Url)
    requires s.frontier != [] && DistinctUrls(s.frontier)
    ensures Left(s.(frontier := s.frontier[1..]), u) <==> Left(s, u) && u != s.frontier[0].url
  {
    var rest := s.frontier[1..];
    if k :| 0 < k < |s.frontier| && s.frontier[k].url == u {
      assert rest[k - 1].url == u;
    }
    if Left(s.(frontier := rest), u) {
      var k :| 0 <= k < |rest| && rest[k].url == u;
      assert s.frontier[k + 1].url == u;
    }
  }

  lemma VisitRefuses(site: Site, cfg: Config, s: State, u: Url)
    requires s.frontier != [] && DistinctUrls(s.frontier) && Fetchable(site, cfg, s.frontier[0])
    ensures Refused(site, cfg, Step(site, cfg, s), u) <==> Refused(site, cfg, s, u)
  {
    var item, rest := s.frontier[0], s.(frontier := s.frontier[1..]);
    RestLeaves(s, u);
    var t := rest.(pages := s.pages + [item]);
    assert Left(t, u) <==> Left(rest, u);
    EnqueueLeaves(t, Targets(site, site.fetch(item.url).links), item.depth + 1, u);
  }

  lemma DiscardRefuses(site: Site, cfg: Config, s: State, m: Marks, u: Url)
    requires Inv(site, cfg, s, m) && s.frontier != [] && !Fetchable(site, cfg, s.frontier[0])
    ensures Refused(site, cfg, Step(site, cfg, s), u) <==>
            Refused(site, cfg, s, u) || (u == s.frontier[0].url && s.frontier[0].depth <= cfg.maxDepth)
  {
    var item, t := s.frontier[0], Step(site, cfg, s);
    RestLeaves(s, u);
    assert Left(t, u) <==> Left(s.(frontier := s.frontier[1..]), u);
    assert item.url in m && m[item.url] == item.depth;
    assert Distance(site, cfg, item.url, item.depth);
    assert WithinReach(site, cfg, item.url) <==> item.depth <= cfg.maxDepth;
  }

  lemma StepBlocked(site: Site, cfg: Config, s: State, m: Marks)
    requires Inv(site, cfg, s, m) && s.frontier != [] && BlockedFit(site, cfg, s)
    ensures BlockedFit(site, cfg, Step(site, cfg, s))
  {
    var item, t := s.frontier[0], Step(site, cfg, s);
    if Fetchable(site, cfg, item) {
      VisitPages(site, cfg, s.(frontier := s.frontier[1..]), item);
      forall u ensures Refused(site, cfg, t, u) <==> Refused(site, cfg, s, u) {
        VisitRefuses(site, cfg, s, u);
      }
    } else {
      forall u ensures Refused(site, cfg, t, u) <==>
                       Refused(site, cfg, s, u) || (u == item.url && item.depth <= cfg.maxDepth)
      {
        DiscardRefuses(site, cfg, s, m, u);
      }
      assert Left(s, item.url) && !Refused(site, cfg, s, item.url);
      if item.depth <= cfg.maxDepth {
        OneMoreBlocked(s.blocked, item.url);
        assert t.blocked == s.blocked + [item.url];
      }
    }
  }

  lemma OneMoreBlocked(blocked: seq<Url>, v: Url)
    requires v !in blocked && forall j, k :: 0 <= j < k < |blocked| ==> blocked[j] != blocked[k]
    ensures var more := blocked + [v];
            && (forall j, k :: 0 <= j < k < |more| ==> more[j] != more[k])
            && (forall u :: u in more <==> u in blocked || u == v)
  {
    assert forall j :: 0 <= j < |blocked| ==> blocked[j] in blocked;
    assert (blocked + [v])[|blocked|] == v;
  }

  lemma {:induction false} FifoBlocked(site: Site, cfg: Config, s: State, m: Marks) returns (n: Marks)
    requires Inv(site, cfg, s, m) && |s.pages| <= cfg.maxPages && BlockedFit(site, cfg, s)
    ensures Inv(site, cfg, Fifo(site, cfg, s), n) && BlockedFit(site, cfg, Fifo(site, cfg, s))
    decreases cfg.maxPages - |s.pages|, |s.frontier|
  {
    if s.frontier == [] || |s.pages| >= cfg.maxPages {
      n := m;
    } else {
      StepBlocked(site, cfg, s, m);
      n := StepKeeps(site, cfg, s, m);
      n := FifoBlocked(site, cfg, Step(site, cfg, s), n);
    }
  }

  /** The URLs reported as refused are, each once, those that were queued, have been taken, lie
      within the depth limit and are not allowed. */
  lemma RefusedExactly(site: Site, cfg: Config)
    ensures BlockedFit(site, cfg, Crawl(site, cfg))
  {
    var m := InitialKeeps(site, cfg);
    InitialBlocked(site, cfg);
    var n := FifoBlocked(site, cfg, Initial(site, cfg), m);
  }

  lemma InitialBlocked(site: Site, cfg: Config)
    ensures BlockedFit(site, cfg, Initial(site, cfg))
  {
    var s := State([Item(cfg.start, 0)], {cfg.start}, [], []);
    var seeds := Seeds(site, Head(cfg.sitemap, cfg.maxPages));
    EnqueuePages(s, seeds, 1);
    forall u ensures !Refused(site, cfg, Initial(site, cfg), u) {
      EnqueueLeaves(s, seeds, 1, u);
      assert s.frontier[0].url == cfg.start;
    }
  }

  /** A crawl that runs out of URLs has refused exactly those within the depth limit that are not
      allowed, so that nothing within the limit is left out of its report. */
  lemma RefusedAll(site: Site, cfg: Config, u: Url)
    requires Crawl(site, cfg).frontier == []
    ensures u in Crawl(site, cfg).blocked <==> !site.allowed(u) && WithinReach(site, cfg, u)
  {
    RefusedExactly(site, cfg);
    var m := InitialKeeps(site, cfg);
    var n := FifoKeeps(site, cfg, Initial(site, cfg), m);
    var s := Crawl(site, cfg);
    if WithinReach(site, cfg, u) {
      var d: nat :| d <= cfg.maxDepth && Way(site, cfg, u, d);
      assert Reached(site, cfg, n, cfg.maxDepth);
      assert u in s.queued;
    }
    assert !Left(s, u);
    assert Refused(site, cfg, s, u) <==> !site.allowed(u) && WithinReach(site, cfg, u);
  }
}
