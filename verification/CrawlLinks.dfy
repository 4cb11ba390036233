/** Which URLs a page or a sitemap adds to the frontier, link by link and in order.
  */
module CrawlLinks {
  import opened Options
  import opened Picks
  import opened Crawler

  // ---- where links and sitemap entries lead

  /** Some internal link with a crawlable address leads to `v`. */
  predicate LinksTo(site: Site, links: seq<Link>, v: Url) {
    exists k :: 0 <= k < |links| && Follows(site, links[k], v)
  }

  predicate Follows(site: Site, link: Link, v: Url) {
    link.internal && site.crawlable(link.href) && site.normalize(link.href) == v
  }

  /** One of the first `maxPages` entries of the sitemap is `v`, a URL of this site. */
  predicate InSitemap(site: Site, cfg: Config, v: Url) {
    exists k :: 0 <= k < |cfg.sitemap| && k < cfg.maxPages && IsSeed(site, cfg.sitemap[k], v)
  }

  predicate IsSeed(site: Site, loc: Url, v: Url) {
    site.normalize(loc) == v && site.sameSite(v)
  }

  /** The URL a link is followed to, if it is. */
  function Followed(site: Site, link: Link): Option<Url> {
    if link.internal && site.crawlable(link.href) then Some(site.normalize(link.href)) else None
  }

  /** The URL an entry of the sitemap stands for, if it is of this site. */
  function Seeded(site: Site, loc: Url): Option<Url> {
    if site.sameSite(site.normalize(loc)) then Some(site.normalize(loc)) else None
  }

  /** What the links offer for queueing, in order, with gaps where one is not followed. */
  function LinkOffers(site: Site, links: seq<Link>): seq<Option<Url>> {
    seq(|links|, k requires 0 <= k < |links| => Followed(site, links[k]))
  }

  function SitemapOffers(site: Site, locs: seq<Url>): seq<Option<Url>> {
    seq(|locs|, k requires 0 <= k < |locs| => Seeded(site, locs[k]))
  }

  // ---- what is queued

  /** Offer `k` is a URL, never queued and not offered earlier. */
  predicate New(offers: seq<Option<Url>>, queued: set<Url>, k: nat) {
    && k < |offers| && offers[k].Some? && offers[k].value !in queued
    && forall j :: 0 <= j < k ==> offers[j] != offers[k]
  }

  /** From `s` to `t` exactly the new offers were queued, in order, at one depth; `idx` says which. */
  ghost predicate QueuesNew(offers: seq<Option<Url>>, s: State, t: State, depth: nat, idx: seq<nat>) {
    && Ascending(idx)
    && (forall n :: 0 <= n < |idx| ==> New(offers, s.queued, idx[n]))
    && (forall k: nat :: New(offers, s.queued, k) ==> k in idx)
    && (forall v :: v in t.queued <==> v in s.queued || Some(v) in offers)
    && |t.frontier| == |s.frontier| + |idx| && s.frontier <= t.frontier
    && (forall n :: 0 <= n < |idx| ==> Some(t.frontier[|s.frontier| + n].url) == offers[idx[n]])
    && (forall n :: |s.frontier| <= n < |t.frontier| ==> t.frontier[n].depth == depth)
    && t.pages == s.pages && t.blocked == s.blocked
  }

  function One(o: Option<Url>): seq<Url> {
    if o.Some? then [o.value] else []
  }

  lemma NewEarlier(offers: seq<Option<Url>>, o: Option<Url>, queued: set<Url>, k: nat)
    requires k < |offers|
    ensures New(offers + [o], queued, k) <==> New(offers, queued, k)
  {
    var more := offers + [o];
    assert forall j :: 0 <= j <= k ==> more[j] == offers[j];
  }

  lemma NewLast(offers: seq<Option<Url>>, o: Option<Url>, queued: set<Url>)
    ensures New(offers + [o], queued, |offers|) <==> o.Some? && o.value !in queued && o !in offers
  {
    var more := offers + [o];
    assert forall j :: 0 <= j < |offers| ==> more[j] == offers[j];
    assert more[|offers|] == o;
  }

  /** One more offer. */
  lemma QueuesOne(offers: seq<Option<Url>>, o: Option<Url>, s: State, t: State, depth: nat, idx: seq<nat>)
    returns (next: seq<nat>)
    requires QueuesNew(offers, s, t, depth, idx)
    ensures QueuesNew(offers + [o], s, Enqueue(t, One(o), depth), depth, next)
  {
    NewLast(offers, o, s.queued);
    forall k: nat | k < |offers| ensures New(offers + [o], s.queued, k) <==> New(offers, s.queued, k) {
      NewEarlier(offers, o, s.queued, k);
    }
    EnqueueOne(t, o, depth);
    if o.Some? && o.value !in t.queued {
      next := idx + [|offers|];
      assert next[|idx|] == |offers|;
      QueuedOne(offers, o, s.queued, next, idx);
    } else {
      next := idx;
    }
  }

  lemma EnqueueOne(t: State, o: Option<Url>, depth: nat)
    ensures Enqueue(t, One(o), depth) ==
            if o.Some? && o.value !in t.queued then
              t.(frontier := t.frontier + [Item(o.value, depth)], queued := t.queued + {o.value})
            else t
  {
    if o.Some? {
      assert [o.value][1..] == [];
    }
  }

  lemma QueuedOne(offers: seq<Option<Url>>, o: Option<Url>, queued: set<Url>, next: seq<nat>, idx: seq<nat>)
    requires next == idx + [|offers|]
    requires forall k: nat :: New(offers, queued, k) ==> k in idx
    ensures forall k: nat :: New(offers + [o], queued, k) ==> k in next
  {
    forall k: nat | New(offers + [o], queued, k) ensures k in next {
      if k < |offers| {
        NewEarlier(offers, o, queued, k);
      } else {
        assert next[|idx|] == k;
      }
    }
  }

  /** Following links is queueing what they offer. */
  lemma {:induction false} FollowsInOrder(site: Site, s: State, links: seq<Link>, depth: nat) returns (idx: seq<nat>)
    ensures QueuesNew(LinkOffers(site, links), s, Enqueue(s, Targets(site, links), depth), depth, idx)
    decreases |links|
  {
    if links == [] {
      idx := [];
    } else {
      var head, last := links[..|links| - 1], links[|links| - 1];
      idx := FollowsInOrder(site, s, head, depth);
      assert links == head + [last];
      TargetsConcat(site, head, [last]);
      assert Targets(site, [last]) == One(Followed(site, last));
      EnqueueConcat(s, Targets(site, head), One(Followed(site, last)), depth);
      assert LinkOffers(site, links) == LinkOffers(site, head) + [Followed(site, last)];
      idx := QueuesOne(LinkOffers(site, head), Followed(site, last), s, Enqueue(s, Targets(site, head), depth), depth,
                       idx);
    }
  }

  /** And so is seeding the frontier. */
  lemma {:induction false} SeedsInOrder(site: Site, s: State, locs: seq<Url>) returns (idx: seq<nat>)
    ensures QueuesNew(SitemapOffers(site, locs), s, Enqueue(s, Seeds(site, locs), 1), 1, idx)
    decreases |locs|
  {
    if locs == [] {
      idx := [];
    } else {
      var head, last := locs[..|locs| - 1], locs[|locs| - 1];
      idx := SeedsInOrder(site, s, head);
      assert locs == head + [last];
      SeedsConcat(site, head, [last]);
      assert Seeds(site, [last]) == One(Seeded(site, last));
      EnqueueConcat(s, Seeds(site, head), One(Seeded(site, last)), 1);
      assert SitemapOffers(site, locs) == SitemapOffers(site, head) + [Seeded(site, last)];
      idx := QueuesOne(SitemapOffers(site, head), Seeded(site, last), s, Enqueue(s, Seeds(site, head), 1), 1, idx);
    }
  }

  /** Fetching a URL records it; if it came back all right above the depth limit, the URLs its links
      are followed to and that were never queued join the frontier in the order of the links, one
      level below. */
  lemma VisitInOrder(site: Site, cfg: Config, s: State, item: Item) returns (idx: seq<nat>)
    ensures var t := Visit(site, cfg, s, item);
            && t.pages == s.pages + [item]
            && if item.depth < cfg.maxDepth && site.fetch(item.url).ok then
                 QueuesNew(LinkOffers(site, site.fetch(item.url).links), s.(pages := t.pages), t, item.depth + 1, idx)
               else t == s.(pages := t.pages)
  {
    VisitPages(site, cfg, s, item);
    idx := FollowsInOrder(site, s.(pages := s.pages + [item]), site.fetch(item.url).links, item.depth + 1);
  }

  /** A crawl begins with the start at depth 0 and, in the order of the sitemap, the URLs of this
      site among its first `maxPages` entries at depth 1, each once. */
  lemma InitialInOrder(site: Site, cfg: Config) returns (idx: seq<nat>)
    ensures var locs := if |cfg.sitemap| < cfg.maxPages then cfg.sitemap else cfg.sitemap[..cfg.maxPages];
            QueuesNew(SitemapOffers(site, locs), State([Item(cfg.start, 0)], {cfg.start}, [], []),
                      Initial(site, cfg), 1, idx)
  {
    var locs := Head(cfg.sitemap, cfg.maxPages);
    assert |cfg.sitemap| == cfg.maxPages ==> cfg.sitemap[..cfg.maxPages] == cfg.sitemap;
    idx := SeedsInOrder(site, State([Item(cfg.start, 0)], {cfg.start}, [], []), locs);
  }

  lemma {:induction false} TargetsAre(site: Site, links: seq<Link>, v: Url)
    ensures v in Targets(site, links) <==> LinksTo(site, links, v)
  {
    if links != [] {
      TargetsAre(site, links[1..], v);
      if LinksTo(site, links[1..], v) {
        var k :| 0 <= k < |links[1..]| && Follows(site, links[1..][k], v);
        assert Follows(site, links[k + 1], v);
      }
      if k :| 0 < k < |links| && Follows(site, links[k], v) {
        assert Follows(site, links[1..][k - 1], v);
      }
    }
  }

  lemma {:induction false} SeedsAre(site: Site, locs: seq<Url>, v: Url)
    ensures v in Seeds(site, locs) <==> exists k :: 0 <= k < |locs| && IsSeed(site, locs[k], v)
  {
    if locs != [] {
      SeedsAre(site, locs[1..], v);
      if k :| 0 <= k < |locs[1..]| && IsSeed(site, locs[1..][k], v) {
        assert IsSeed(site, locs[k + 1], v);
      }
      if k :| 0 < k < |locs| && IsSeed(site, locs[k], v) {
        assert IsSeed(site, locs[1..][k - 1], v);
      }
    }
  }

  lemma SitemapAre(site: Site, cfg: Config, v: Url)
    ensures v in Seeds(site, Head(cfg.sitemap, cfg.maxPages)) <==> InSitemap(site, cfg, v)
  {
    var locs := Head(cfg.sitemap, cfg.maxPages);
    SeedsAre(site, locs, v);
    if InSitemap(site, cfg, v) {
      var k :| 0 <= k < |cfg.sitemap| && k < cfg.maxPages && IsSeed(site, cfg.sitemap[k], v);
      assert IsSeed(site, locs[k], v);
    }
  }
}
