/** The batched breadth-first crawler and the one-URL-at-a-time crawl it is equal to.

    Fetching is a function from URL to page: the crawler never asks for a URL twice.
  */
module Crawler {

  type Url = string

  datatype Link = Link(href: Url, internal: bool)

  datatype Page = Page(ok: bool, links: seq<Link>)

  /** A site as the crawler sees it, with the parts of URL handling it relies on. */
  datatype Site = Site(
    fetch: Url -> Page,
    allowed: Url -> bool,
    crawlable: Url -> bool,
    normalize: Url -> Url,
    sameSite: Url -> bool)

  datatype Config = Config(start: Url, sitemap: seq<Url>, maxPages: nat, maxDepth: nat)

  datatype Item = Item(url: Url, depth: nat)

  /** The crawl's variables: URLs to visit, URLs ever queued, pages fetched, URLs refused. */
  datatype State = State(frontier: seq<Item>, queued: set<Url>, pages: seq<Item>, blocked: seq<Url>)

  /** The URLs an expanded page leads to, in order. */
  function Targets(site: Site, links: seq<Link>): seq<Url> {
    if links == [] then []
    else
      (if links[0].internal && site.crawlable(links[0].href) then [site.normalize(links[0].href)] else [])
        + Targets(site, links[1..])
  }

  /** The seeds a sitemap contributes: the first `maxPages` entries that are on this site. */
  function Seeds(site: Site, locs: seq<Url>): seq<Url> {
    if locs == [] then []
    else
      var u := site.normalize(locs[0]);
      (if site.sameSite(u) then [u] else []) + Seeds(site, locs[1..])
  }

  function Head(locs: seq<Url>, n: nat): seq<Url> {
    if |locs| <= n then locs else locs[..n]
  }

  /** Queue the URLs that are new, at one depth. */
  function Enqueue(s: State, urls: seq<Url>, depth: nat): State
    decreases |urls|
  {
    if urls == [] then s
    else if urls[0] in s.queued then Enqueue(s, urls[1..], depth)
    else Enqueue(s.(frontier := s.frontier + [Item(urls[0], depth)], queued := s.queued + {urls[0]}), urls[1..], depth)
  }

  predicate Expands(site: Site, cfg: Config, item: Item) {
    item.depth < cfg.maxDepth && site.fetch(item.url).ok
  }

  /** Fetch one URL: record the page and queue what it leads to. */
  function Visit(site: Site, cfg: Config, s: State, item: Item): State {
    var s1 := s.(pages := s.pages + [item]);
    if Expands(site, cfg, item) then
      Enqueue(s1, Targets(site, site.fetch(item.url).links), item.depth + 1)
    else s1
  }

  /** Whether a URL taken from the frontier is fetched at all. */
  predicate Fetchable(site: Site, cfg: Config, item: Item) {
    item.depth <= cfg.maxDepth && site.allowed(item.url)
  }

  /** Take a URL that is not fetched: too deep, or refused by robots.txt. */
  function Discard(cfg: Config, s: State, item: Item): State {
    if item.depth > cfg.maxDepth then s else s.(blocked := s.blocked + [item.url])
  }

  /** One URL at a time, first in first out. */
  function Step(site: Site, cfg: Config, s: State): State
    requires s.frontier != []
  {
    var item := s.frontier[0];
    var rest := s.(frontier := s.frontier[1..]);
    if Fetchable(site, cfg, item) then Visit(site, cfg, rest, item) else Discard(cfg, rest, item)
  }

  function Fifo(site: Site, cfg: Config, s: State): State
    decreases cfg.maxPages - |s.pages|, |s.frontier|
  {
    if s.frontier == [] || |s.pages| >= cfg.maxPages then s
    else
      EnqueuePages(s.(frontier := s.frontier[1..], pages := s.pages + [s.frontier[0]]),
                   Targets(site, site.fetch(s.frontier[0].url).links), s.frontier[0].depth + 1);
      Fifo(site, cfg, Step(site, cfg, s))
  }

  lemma {:induction false} EnqueuePages(s: State, urls: seq<Url>, depth: nat)
    ensures Enqueue(s, urls, depth).pages == s.pages && Enqueue(s, urls, depth).blocked == s.blocked
    decreases |urls|
  {
    if urls != [] {
      if urls[0] in s.queued {
        EnqueuePages(s, urls[1..], depth);
      } else {
        var s1 := s.(frontier := s.frontier + [Item(urls[0], depth)], queued := s.queued + {urls[0]});
        EnqueuePages(s1, urls[1..], depth);
      }
    }
  }

  /** The start URL at depth 0, then the sitemap's URLs at depth 1. */
  function Initial(site: Site, cfg: Config): State {
    Enqueue(State([Item(cfg.start, 0)], {cfg.start}, [], []), Seeds(site, Head(cfg.sitemap, cfg.maxPages)), 1)
  }

  function Crawl(site: Site, cfg: Config): State {
    Fifo(site, cfg, Initial(site, cfg))
  }

  // ---- queueing only ever adds at the end, whatever is in front

  function WithFront(front: seq<Item>, s: State): State {
    s.(frontier := front + s.frontier)
  }

  lemma {:induction false} EnqueueFront(front: seq<Item>, s: State, urls: seq<Url>, depth: nat)
    ensures Enqueue(WithFront(front, s), urls, depth) == WithFront(front, Enqueue(s, urls, depth))
    decreases |urls|
  {
    if urls != [] {
      if urls[0] in s.queued {
        EnqueueFront(front, s, urls[1..], depth);
      } else {
        var s1 := s.(frontier := s.frontier + [Item(urls[0], depth)], queued := s.queued + {urls[0]});
        assert (front + s.frontier) + [Item(urls[0], depth)] == front + s1.frontier;
        EnqueueFront(front, s1, urls[1..], depth);
      }
    }
  }

  lemma VisitFront(site: Site, cfg: Config, front: seq<Item>, s: State, item: Item)
    ensures Visit(site, cfg, WithFront(front, s), item) == WithFront(front, Visit(site, cfg, s, item))
  {
    EnqueueFront(front, s.(pages := s.pages + [item]), Targets(site, site.fetch(item.url).links), item.depth + 1);
  }

  predicate AllFetchable(site: Site, cfg: Config, batch: seq<Item>) {
    forall k :: 0 <= k < |batch| ==> Fetchable(site, cfg, batch[k])
  }

  /** Fetching the first of a batch waiting in front of the frontier is one step of the crawl. */
  lemma FifoVisits(site: Site, cfg: Config, batch: seq<Item>, s: State)
    requires batch != [] && Fetchable(site, cfg, batch[0]) && |s.pages| < cfg.maxPages
    ensures Fifo(site, cfg, WithFront(batch, s))
         == Fifo(site, cfg, WithFront(batch[1..], Visit(site, cfg, s, batch[0])))
  {
    var t := WithFront(batch, s);
    assert t.frontier[1..] == batch[1..] + s.frontier;
    assert t.(frontier := t.frontier[1..]) == WithFront(batch[1..], s);
    VisitFront(site, cfg, batch[1..], s, batch[0]);
  }

  lemma VisitPages(site: Site, cfg: Config, s: State, item: Item)
    ensures Visit(site, cfg, s, item).pages == s.pages + [item]
    ensures Visit(site, cfg, s, item).blocked == s.blocked
  {
    EnqueuePages(s.(pages := s.pages + [item]), Targets(site, site.fetch(item.url).links), item.depth + 1);
  }

  /** Taking a URL that is not fetched can be done before the batch in front of it is fetched. */
  lemma {:induction false} FifoDiscards(site: Site, cfg: Config, batch: seq<Item>, item: Item, s: State)
    requires AllFetchable(site, cfg, batch) && !Fetchable(site, cfg, item)
    requires |s.pages| + |batch| < cfg.maxPages
    ensures Fifo(site, cfg, WithFront(batch + [item], s)) == Fifo(site, cfg, WithFront(batch, Discard(cfg, s, item)))
    decreases |batch|
  {
    if batch == [] {
      var t := WithFront([item], s);
      assert [] + [item] == [item];
      assert t.frontier[1..] == s.frontier;
      assert t.(frontier := t.frontier[1..]) == s;
      assert WithFront([], Discard(cfg, s, item)) == Discard(cfg, s, item);
    } else {
      var s1 := Visit(site, cfg, s, batch[0]);
      VisitPages(site, cfg, s, batch[0]);
      FifoVisits(site, cfg, batch + [item], s);
      assert (batch + [item])[1..] == batch[1..] + [item];
      FifoDiscards(site, cfg, batch[1..], item, s1);
      FifoVisits(site, cfg, batch, Discard(cfg, s, item));
      DiscardVisit(site, cfg, s, item, batch[0]);
    }
  }

  lemma DiscardVisit(site: Site, cfg: Config, s: State, item: Item, first: Item)
    ensures Visit(site, cfg, Discard(cfg, s, item), first) == Discard(cfg, Visit(site, cfg, s, first), item)
  {
    VisitPages(site, cfg, s, first);
    if item.depth <= cfg.maxDepth {
      EnqueueBlocked(s.(pages := s.pages + [first]), s.blocked + [item.url],
                     Targets(site, site.fetch(first.url).links), first.depth + 1);
    }
  }

  lemma {:induction false} EnqueueBlocked(s: State, blocked: seq<Url>, urls: seq<Url>, depth: nat)
    ensures Enqueue(s.(blocked := blocked), urls, depth) == Enqueue(s, urls, depth).(blocked := blocked)
    decreases |urls|
  {
    if urls != [] {
      if urls[0] in s.queued {
        EnqueueBlocked(s, blocked, urls[1..], depth);
      } else {
        EnqueueBlocked(s.(frontier := s.frontier + [Item(urls[0], depth)], queued := s.queued + {urls[0]}),
                       blocked, urls[1..], depth);
      }
    }
  }

  lemma {:induction false} EnqueueConcat(s: State, a: seq<Url>, b: seq<Url>, depth: nat)
    ensures Enqueue(s, a + b, depth) == Enqueue(Enqueue(s, a, depth), b, depth)
    decreases |a|
  {
    if a == [] {
      assert a + b == b;
    } else {
      assert (a + b)[1..] == a[1..] + b;
      if a[0] in s.queued {
        EnqueueConcat(s, a[1..], b, depth);
      } else {
        EnqueueConcat(s.(frontier := s.frontier + [Item(a[0], depth)], queued := s.queued + {a[0]}), a[1..], b, depth);
      }
    }
  }

  lemma {:induction false} TargetsConcat(site: Site, a: seq<Link>, b: seq<Link>)
    ensures Targets(site, a + b) == Targets(site, a) + Targets(site, b)
  {
    if a == [] {
      assert a + b == b;
    } else {
      assert (a + b)[1..] == a[1..] + b;
      TargetsConcat(site, a[1..], b);
    }
  }

  lemma {:induction false} SeedsConcat(site: Site, a: seq<Url>, b: seq<Url>)
    ensures Seeds(site, a + b) == Seeds(site, a) + Seeds(site, b)
  {
    if a == [] {
      assert a + b == b;
    } else {
      assert (a + b)[1..] == a[1..] + b;
      SeedsConcat(site, a[1..], b);
    }
  }

  // ---- the crawler itself

  /** The crawler's working variables. */
  class Run {
    const site: Site
    const cfg: Config
    var frontier: seq<Item>
    var queued: set<Url>
    var pages: seq<Item>
    var blocked: seq<Url>

    constructor (site: Site, cfg: Config)
      ensures this.site == site && this.cfg == cfg
      ensures Now() == State([Item(cfg.start, 0)], {cfg.start}, [], [])
    {
      this.site, this.cfg := site, cfg;
      frontier, queued, pages, blocked := [Item(cfg.start, 0)], {cfg.start}, [], [];
    }

    function Now(): State
      reads this
    {
      State(frontier, queued, pages, blocked)
    }

    /** Seed the frontier from the sitemap. */
    method Seed()
      requires Now() == State([Item(cfg.start, 0)], {cfg.start}, [], [])
      modifies this
      ensures Now() == Initial(site, cfg)
    {
      var locs := Head(cfg.sitemap, cfg.maxPages);
      ghost var s0 := Now();
      for i := 0 to |locs|
        invariant Now() == Enqueue(s0, Seeds(site, locs[..i]), 1)
      {
        assert locs[..i + 1] == locs[..i] + [locs[i]];
        SeedsConcat(site, locs[..i], [locs[i]]);
        var u := site.normalize(locs[i]);
        EnqueueConcat(s0, Seeds(site, locs[..i]), Seeds(site, [locs[i]]), 1);
        if u !in queued && site.sameSite(u) {
          queued := queued + {u};
          frontier := frontier + [Item(u, 1)];
        }
      }
      assert locs[..|locs|] == locs;
    }

    /** Take URLs off the frontier until the batch is full, the page budget is covered or the
        frontier is empty. Without workers nothing is taken, so the crawl would go round for ever. */
    method TakeBatch(workers: int) returns (batch: seq<Item>)
      requires |pages| < cfg.maxPages && frontier != []
      modifies this`frontier, this`blocked
      ensures AllFetchable(site, cfg, batch) && |pages| + |batch| <= cfg.maxPages
      ensures Fifo(site, cfg, WithFront(batch, Now())) == Fifo(site, cfg, old(Now()))
      ensures workers >= 1 && batch == [] ==> |frontier| < |old(frontier)|
      ensures workers < 1 ==> batch == [] && Now() == old(Now())
    {
      batch := [];
      assert WithFront([], Now()) == Now();
      while frontier != [] && |batch| < workers && |pages| + |batch| < cfg.maxPages
        invariant AllFetchable(site, cfg, batch) && |pages| + |batch| <= cfg.maxPages
        invariant Fifo(site, cfg, WithFront(batch, Now())) == Fifo(site, cfg, old(Now()))
        invariant batch == [] ==> |frontier| < |old(frontier)| || frontier == old(frontier)
        invariant workers < 1 ==> batch == [] && Now() == old(Now())
        decreases |frontier|
      {
        ghost var s := Now().(frontier := frontier[1..]);
        var item := frontier[0];
        assert WithFront(batch, Now()) == WithFront(batch + [item], s) by {
          assert batch + frontier == (batch + [item]) + frontier[1..];
        }
        frontier := frontier[1..];
        if item.depth > cfg.maxDepth {
          FifoDiscards(site, cfg, batch, item, s);
          continue;
        }
        if !site.allowed(item.url) {
          FifoDiscards(site, cfg, batch, item, s);
          blocked := blocked + [item.url];
          continue;
        }
        batch := batch + [item];
      }
    }

    /** Record one fetched page and queue the links it leads to. */
    method Process(item: Item, page: Page)
      requires page == site.fetch(item.url)
      modifies this`frontier, this`queued, this`pages
      ensures Now() == Visit(site, cfg, old(Now()), item)
    {
      pages := pages + [item];
      if item.depth >= cfg.maxDepth || !page.ok {
        return;
      }
      ghost var s1 := Now();
      for i := 0 to |page.links|
        invariant Now() == Enqueue(s1, Targets(site, page.links[..i]), item.depth + 1)
      {
        var link := page.links[i];
        assert page.links[..i + 1] == page.links[..i] + [link];
        TargetsConcat(site, page.links[..i], [link]);
        EnqueueConcat(s1, Targets(site, page.links[..i]), Targets(site, [link]), item.depth + 1);
        if !link.internal || !site.crawlable(link.href) {
          continue;
        }
        var target := site.normalize(link.href);
        if target in queued {
          continue;
        }
        queued := queued + {target};
        frontier := frontier + [Item(target, item.depth + 1)];
      }
      assert page.links[..|page.links|] == page.links;
    }

    /** For any number of workers (none is enough only if no page is wanted), the batched crawl ends
        with exactly the pages, depths, refused URLs and leftover frontier of the one-at-a-time
        crawl. */
    method CrawlAll(workers: int)
      requires workers >= 1 || cfg.maxPages == 0
      requires Now() == State([Item(cfg.start, 0)], {cfg.start}, [], [])
      modifies this
      ensures Now() == Crawl(site, cfg)
    {
      Seed();
      while frontier != [] && |pages| < cfg.maxPages
        invariant Fifo(site, cfg, Now()) == Crawl(site, cfg)
        decreases cfg.maxPages - |pages|, |frontier|
      {
        var batch := TakeBatch(workers);
        if batch == [] {
          assert WithFront([], Now()) == Now();
          continue;
        }
        var results := seq(|batch|, i requires 0 <= i < |batch| => site.fetch(batch[i].url));
        ghost var before := |pages|;
        for k := 0 to |batch|
          invariant |pages| == before + k
          invariant Fifo(site, cfg, WithFront(batch[k..], Now())) == Crawl(site, cfg)
        {
          FifoVisits(site, cfg, batch[k..], Now());
          VisitPages(site, cfg, Now(), batch[k]);
          assert batch[k..][1..] == batch[k + 1..];
          Process(batch[k], results[k]);
        }
        assert WithFront(batch[|batch|..], Now()) == Now();
      }
    }
  }
}
