/** Sitemap discovery: following sitemap indexes without fetching anything twice or more than 25
    files, whatever the responses say, including indexes that point at each other.
  */
module Sitemaps {
  import opened Picks

  type Url = string

  const MAX_FILES := 25

  /** What a fetched file turns out to be. */
  datatype Response =
    | Unusable                       // an error, another status than 200, or no markup
    | SoftNotFound                   // an HTML page in place of a sitemap
    | Index(children: seq<Url>)
    | UrlSet(locs: seq<Url>)

  datatype Web = Web(fetch: Url -> Response, normalize: Url -> Url)

  predicate Distinct(s: seq<Url>) {
    forall i, j :: 0 <= i < j < |s| ==> s[i] != s[j]
  }

  /** The files found, in the order they were fetched. */
  function Found(web: Web, files: seq<Url>): seq<Url> {
    if files == [] then []
    else
      var last := files[|files| - 1];
      Found(web, files[..|files| - 1]) + if web.fetch(last).Index? || web.fetch(last).UrlSet? then [last] else []
  }

  function Locs(web: Web, files: seq<Url>): seq<Url> {
    if files == [] then []
    else
      var last := files[|files| - 1];
      Locs(web, files[..|files| - 1]) + if web.fetch(last).UrlSet? then web.fetch(last).locs else []
  }

  /** The pages that posed as sitemaps. */
  function Impostors(web: Web, files: seq<Url>): seq<Url> {
    if files == [] then []
    else
      var last := files[|files| - 1];
      Impostors(web, files[..|files| - 1]) + if web.fetch(last).SoftNotFound? then [last] else []
  }

  lemma OneMore(web: Web, files: seq<Url>, url: Url)
    ensures var r := web.fetch(url);
            && Found(web, files + [url]) == Found(web, files) + (if r.Index? || r.UrlSet? then [url] else [])
            && Locs(web, files + [url]) == Locs(web, files) + (if r.UrlSet? then r.locs else [])
            && Impostors(web, files + [url]) == Impostors(web, files) + (if r.SoftNotFound? then [url] else [])
  {
    assert (files + [url])[..|files|] == files;
  }

  /** First occurrences, in order. */
  function Dedupe(s: seq<Url>): (d: seq<Url>)
    ensures Distinct(d) && |d| <= |s|
    ensures forall u :: u in d <==> u in s
  {
    if s == [] then []
    else
      var init, last := Dedupe(s[..|s| - 1]), s[|s| - 1];
      assert s == s[..|s| - 1] + [last];
      if last in init then init else init + [last]
  }

  // ---- which files can be reached

  predicate Child(web: Web, u: Url, v: Url) {
    web.fetch(u).Index? && exists k :: 0 <= k < |web.fetch(u).children| && web.normalize(web.fetch(u).children[k]) == v
  }

  predicate Candidate(web: Web, candidates: seq<Url>, u: Url) {
    exists k :: 0 <= k < |candidates| && web.normalize(candidates[k]) == u
  }

  /** A chain of sitemap indexes from a candidate to `u`. */
  predicate Chain(web: Web, candidates: seq<Url>, p: seq<Url>, u: Url) {
    && p != [] && Candidate(web, candidates, p[0]) && p[|p| - 1] == u
    && forall i :: 0 <= i < |p| - 1 ==> Child(web, p[i], p[i + 1])
  }

  ghost predicate Reachable(web: Web, candidates: seq<Url>, u: Url) {
    exists p :: Chain(web, candidates, p, u)
  }

  lemma ChainOn(web: Web, candidates: seq<Url>, u: Url, v: Url)
    requires Reachable(web, candidates, u) && Child(web, u, v)
    ensures Reachable(web, candidates, v)
  {
    var p :| Chain(web, candidates, p, u);
    assert Chain(web, candidates, p + [v], v);
  }

  /** A set that holds the candidates and every child of its members holds all that is reachable. */
  lemma {:induction false} ClosedHoldsAll(web: Web, candidates: seq<Url>, files: seq<Url>, p: seq<Url>, u: Url)
    requires forall k :: 0 <= k < |candidates| ==> web.normalize(candidates[k]) in files
    requires forall x, y :: x in files && Child(web, x, y) ==> y in files
    requires Chain(web, candidates, p, u)
    ensures u in files
    decreases |p|
  {
    if |p| > 1 {
      var q := p[..|p| - 1];
      assert Child(web, p[|p| - 2], p[|p| - 1]);
      ClosedHoldsAll(web, candidates, files, q, p[|p| - 2]);
    }
  }

  /** Everything queued or fetched is reachable, and what fetched indexes list is queued or fetched. */
  ghost predicate Exploring(web: Web, candidates: seq<Url>, queue: seq<Url>, files: seq<Url>) {
    && Distinct(files) && |files| <= MAX_FILES
    && (forall k :: 0 <= k < |files| ==> Reachable(web, candidates, files[k]))
    && (forall k :: 0 <= k < |queue| ==> Reachable(web, candidates, web.normalize(queue[k])))
    && (forall k :: 0 <= k < |candidates| ==> Known(web, queue, files, web.normalize(candidates[k])))
    && (forall x, y :: x in files && Child(web, x, y) ==> Known(web, queue, files, y))
  }

  predicate Known(web: Web, queue: seq<Url>, files: seq<Url>, u: Url) {
    u in files || exists k :: 0 <= k < |queue| && web.normalize(queue[k]) == u
  }

  lemma Begin(web: Web, candidates: seq<Url>)
    ensures Exploring(web, candidates, candidates, [])
  {
    forall k | 0 <= k < |candidates| ensures Reachable(web, candidates, web.normalize(candidates[k])) {
      assert Chain(web, candidates, [web.normalize(candidates[k])], web.normalize(candidates[k]));
    }
  }

  lemma KnownLater(web: Web, queue: seq<Url>, files: seq<Url>, more: seq<Url>, url: Url, u: Url)
    requires queue != [] && web.normalize(queue[0]) == url && Known(web, queue, files, u)
    requires url in files
    ensures Known(web, queue[1..] + more, files, u)
  {
    if u !in files {
      var k :| 0 <= k < |queue| && web.normalize(queue[k]) == u;
      assert (queue[1..] + more)[k - 1] == queue[k];
    }
  }

  /** A file seen before is dropped from the queue. */
  lemma Again(web: Web, candidates: seq<Url>, queue: seq<Url>, files: seq<Url>)
    requires Exploring(web, candidates, queue, files) && queue != [] && web.normalize(queue[0]) in files
    ensures Exploring(web, candidates, queue[1..], files)
  {
    var url := web.normalize(queue[0]);
    assert queue[1..] + [] == queue[1..];
    forall k | 0 <= k < |candidates| ensures Known(web, queue[1..], files, web.normalize(candidates[k])) {
      KnownLater(web, queue, files, [], url, web.normalize(candidates[k]));
    }
    forall x, y | x in files && Child(web, x, y) ensures Known(web, queue[1..], files, y) {
      KnownLater(web, queue, files, [], url, y);
    }
  }

  function Children(r: Response): seq<Url> {
    if r.Index? then r.children else []
  }

  /** A new file is fetched and what it lists is queued. */
  lemma Fetch(web: Web, candidates: seq<Url>, queue: seq<Url>, files: seq<Url>)
    requires Exploring(web, candidates, queue, files) && queue != [] && |files| < MAX_FILES
    requires web.normalize(queue[0]) !in files
    ensures var url := web.normalize(queue[0]);
            Exploring(web, candidates, queue[1..] + Children(web.fetch(url)), files + [url])
  {
    var url := web.normalize(queue[0]);
    var more := Children(web.fetch(url));
    var queue', files' := queue[1..] + more, files + [url];
    forall k | 0 <= k < |queue'| ensures Reachable(web, candidates, web.normalize(queue'[k])) {
      if k >= |queue| - 1 {
        assert queue'[k] == more[k - (|queue| - 1)];
        assert Child(web, url, web.normalize(queue'[k]));
        ChainOn(web, candidates, url, web.normalize(queue'[k]));
      } else {
        assert queue'[k] == queue[k + 1];
      }
    }
    FetchKnown(web, candidates, queue, files);
  }

  lemma FetchKnown(web: Web, candidates: seq<Url>, queue: seq<Url>, files: seq<Url>)
    requires Exploring(web, candidates, queue, files) && queue != []
    ensures var url := web.normalize(queue[0]);
            var queue', files' := queue[1..] + Children(web.fetch(url)), files + [url];
            && (forall k :: 0 <= k < |candidates| ==> Known(web, queue', files', web.normalize(candidates[k])))
            && (forall x, y :: x in files' && Child(web, x, y) ==> Known(web, queue', files', y))
  {
    var url := web.normalize(queue[0]);
    var more := Children(web.fetch(url));
    var queue', files' := queue[1..] + more, files + [url];
    forall k | 0 <= k < |candidates| ensures Known(web, queue', files', web.normalize(candidates[k])) {
      assert Known(web, queue, files', web.normalize(candidates[k]));
      KnownLater(web, queue, files', more, url, web.normalize(candidates[k]));
    }
    forall x, y | x in files' && Child(web, x, y) ensures Known(web, queue', files', y) {
      if x == url {
        var k :| 0 <= k < |more| && web.normalize(more[k]) == y;
        assert queue'[|queue| - 1 + k] == more[k];
      } else {
        assert Known(web, queue, files', y);
        KnownLater(web, queue, files', more, url, y);
      }
    }
  }

  lemma Complete(web: Web, candidates: seq<Url>, files: seq<Url>)
    requires Exploring(web, candidates, [], files)
    ensures forall u :: Reachable(web, candidates, u) ==> u in files
  {
    forall u | Reachable(web, candidates, u) ensures u in files {
      var p :| Chain(web, candidates, p, u);
      ClosedHoldsAll(web, candidates, files, p, u);
    }
  }

  /** The files fetched from here on, as one recursion. */
  function Explore(web: Web, queue: seq<Url>, files: seq<Url>): (r: seq<Url>)
    requires |files| <= MAX_FILES
    decreases MAX_FILES - |files|, |queue|
  {
    if queue == [] || |files| == MAX_FILES then files
    else
      var url := web.normalize(queue[0]);
      if url in files then Explore(web, queue[1..], files)
      else Explore(web, queue[1..] + Children(web.fetch(url)), files + [url])
  }

  /** At most 25 files are fetched and none twice; every one of them is a candidate or listed by
      an index on the way; and if the limit was not hit, every such file was fetched. */
  lemma {:induction false} Explored(web: Web, candidates: seq<Url>, queue: seq<Url>, files: seq<Url>)
    requires Exploring(web, candidates, queue, files)
    ensures var all := Explore(web, queue, files);
            && Distinct(all) && |all| <= MAX_FILES
            && (forall k :: 0 <= k < |all| ==> Reachable(web, candidates, all[k]))
            && (|all| < MAX_FILES ==> forall u :: Reachable(web, candidates, u) ==> u in all)
    decreases MAX_FILES - |files|, |queue|
  {
    if queue == [] {
      Complete(web, candidates, files);
    } else if |files| < MAX_FILES {
      var url := web.normalize(queue[0]);
      if url in files {
        Again(web, candidates, queue, files);
        Explored(web, candidates, queue[1..], files);
      } else {
        Fetch(web, candidates, queue, files);
        Explored(web, candidates, queue[1..] + Children(web.fetch(url)), files + [url]);
      }
    }
  }

  // ---- in which order

  /** Everything that is listed: the candidates, then what each fetched index lists. */
  function Listed(web: Web, candidates: seq<Url>, files: seq<Url>): seq<Url> {
    if files == [] then candidates
    else Listed(web, candidates, files[..|files| - 1]) + Children(web.fetch(files[|files| - 1]))
  }

  function Normalized(web: Web, urls: seq<Url>): seq<Url> {
    seq(|urls|, k requires 0 <= k < |urls| => web.normalize(urls[k]))
  }

  /** `idx` says where the entries before `pos` first stand. */
  predicate Upto(all: seq<Url>, pos: nat, files: seq<Url>, idx: seq<nat>) {
    && pos <= |all| && Ascending(idx)
    && (forall j :: 0 <= j < |idx| ==> idx[j] < pos && FirstAt(all, idx[j]))
    && (forall k :: 0 <= k < pos ==> all[k] in files && (FirstAt(all, k) ==> k in idx))
    && files == Chosen(all, idx)
  }

  /** The next entry is new exactly if it has not been fetched. */
  lemma UptoNext(all: seq<Url>, pos: nat, files: seq<Url>, idx: seq<nat>)
    requires Upto(all, pos, files, idx) && pos < |all|
    ensures all[pos] in files ==> Upto(all, pos + 1, files, idx)
    ensures all[pos] !in files ==> Upto(all, pos + 1, files + [all[pos]], idx + [pos])
  {
    if all[pos] in files {
      var n :| 0 <= n < |files| && files[n] == all[pos];
      assert all[idx[n]] == all[pos];
    } else {
      assert FirstAt(all, pos);
      assert (idx + [pos])[|idx|] == pos;
      assert Chosen(all, idx + [pos]) == Chosen(all, idx) + [all[pos]];
    }
  }

  lemma UptoLonger(all: seq<Url>, longer: seq<Url>, pos: nat, files: seq<Url>, idx: seq<nat>)
    requires Upto(all, pos, files, idx) && all <= longer
    ensures Upto(longer, pos, files, idx)
  {
    assert forall k :: 0 <= k < |all| ==> longer[k] == all[k];
    assert forall k :: 0 <= k < pos ==> (FirstAt(longer, k) <==> FirstAt(all, k));
    assert Chosen(longer, idx) == Chosen(all, idx);
  }

  lemma UptoIsFirst(all: seq<Url>, pos: nat, files: seq<Url>, idx: seq<nat>, cap: nat)
    requires Upto(all, pos, files, idx) && |files| <= cap && (pos == |all| || |files| == cap)
    ensures FirstDifferent(all, cap, files)
  {
    forall k | 0 <= k < |all| && FirstAt(all, k) && k !in idx ensures Full(idx, cap, k) {
      assert k >= pos;
    }
    assert FirstPlaces(all, cap, idx);
  }

  lemma {:induction false} ExploredUpto(web: Web, candidates: seq<Url>, queue: seq<Url>, files: seq<Url>, pos: nat,
                                        idx: seq<nat>)
    requires var all := Listed(web, candidates, files);
             Upto(Normalized(web, all), pos, files, idx) && queue == all[pos..]
    requires |files| <= MAX_FILES
    ensures var r := Explore(web, queue, files);
            FirstDifferent(Normalized(web, Listed(web, candidates, r)), MAX_FILES, r)
    decreases MAX_FILES - |files|, |queue|
  {
    var all := Normalized(web, Listed(web, candidates, files));
    if queue == [] || |files| == MAX_FILES {
      UptoIsFirst(all, pos, files, idx, MAX_FILES);
    } else {
      var url := web.normalize(queue[0]);
      assert url == all[pos] && queue[1..] == Listed(web, candidates, files)[pos + 1..];
      UptoNext(all, pos, files, idx);
      if url in files {
        ExploredUpto(web, candidates, queue[1..], files, pos + 1, idx);
      } else {
        var more := Children(web.fetch(url));
        ListedNext(web, candidates, files, url);
        UptoLonger(all, Normalized(web, Listed(web, candidates, files + [url])), pos + 1, files + [url], idx + [pos]);
        QueueFetched(Listed(web, candidates, files), more, pos + 1, queue[1..]);
        ExploredUpto(web, candidates, queue[1..] + more, files + [url], pos + 1, idx + [pos]);
      }
    }
  }

  lemma QueueFetched(listed: seq<Url>, more: seq<Url>, pos: nat, queue: seq<Url>)
    requires pos <= |listed| && queue == listed[pos..]
    ensures queue + more == (listed + more)[pos..]
  {
  }

  lemma ListedNext(web: Web, candidates: seq<Url>, files: seq<Url>, url: Url)
    ensures var more := Children(web.fetch(url));
            && Listed(web, candidates, files + [url]) == Listed(web, candidates, files) + more
            && Normalized(web, Listed(web, candidates, files + [url]))
               == Normalized(web, Listed(web, candidates, files)) + Normalized(web, more)
  {
    assert (files + [url])[..|files|] == files;
  }

  /** The files are fetched breadth first: they are the first 25 different ones among the candidates
      followed by what each fetched index lists, in that order. */
  lemma ExploredInOrder(web: Web, candidates: seq<Url>)
    ensures var r := Explore(web, candidates, []);
            FirstDifferent(Normalized(web, Listed(web, candidates, r)), MAX_FILES, r)
  {
    var all := Normalized(web, candidates);
    assert Chosen(all, []) == [];
    assert candidates[0..] == candidates;
    ExploredUpto(web, candidates, candidates, [], 0, []);
  }

  // ---- what is reported

  lemma {:induction false} DedupeIsFirst(s: seq<Url>)
    ensures FirstDifferent(s, |s|, Dedupe(s))
  {
    var idx := DedupeUpto(s, |s|);
    assert s[..|s|] == s;
    UptoIsFirst(s, |s|, Dedupe(s), idx, |s|);
  }

  lemma {:induction false} DedupeUpto(s: seq<Url>, pos: nat) returns (idx: seq<nat>)
    requires pos <= |s|
    ensures Upto(s, pos, Dedupe(s[..pos]), idx)
  {
    if pos == 0 {
      idx := [];
      assert Chosen(s, idx) == [];
    } else {
      idx := DedupeUpto(s, pos - 1);
      var before := Dedupe(s[..pos - 1]);
      DedupeNext(s, pos - 1);
      UptoNext(s, pos - 1, before, idx);
      if s[pos - 1] !in before {
        idx := idx + [pos - 1];
      }
    }
  }

  lemma DedupeNext(s: seq<Url>, n: nat)
    requires n < |s|
    ensures Dedupe(s[..n + 1]) ==
            if s[n] in Dedupe(s[..n]) then Dedupe(s[..n]) else Dedupe(s[..n]) + [s[n]]
  {
    assert s[..n + 1][..n] == s[..n];
  }

  predicate IsSitemap(r: Response) {
    match r
    case Index(_) => true
    case UrlSet(_) => true
    case _ => false
  }

  /** Found are exactly the fetched files that are sitemaps, and the errors exactly the pages that
      posed as one, both in order. */
  lemma {:induction false} FoundAndErrors(web: Web, files: seq<Url>)
    ensures Kept(files, u => IsSitemap(web.fetch(u)), Found(web, files))
    ensures Kept(files, u => web.fetch(u) == SoftNotFound, Impostors(web, files))
  {
    if files == [] {
      assert Chosen(files, []) == [];
      assert Passing(files, u => IsSitemap(web.fetch(u)), []);
      assert Passing(files, u => web.fetch(u) == SoftNotFound, []);
    } else {
      var init, last := files[..|files| - 1], files[|files| - 1];
      FoundAndErrors(web, init);
      assert files == init + [last];
      KeptOne(init, u => IsSitemap(web.fetch(u)), Found(web, init), last);
      KeptOne(init, u => web.fetch(u) == SoftNotFound, Impostors(web, init), last);
    }
  }

  /** The locations: those of every fetched sitemap that is not an index, one file after another;
      `at` says where those of each file begin. */
  predicate LocsLaid(web: Web, files: seq<Url>, locs: seq<Url>, at: seq<nat>) {
    && |at| == |files| + 1 && at[0] == 0 && at[|files|] == |locs|
    && forall k :: 0 <= k < |files| ==> LaidAt(locs, at, k, LocsIn(web.fetch(files[k])))
  }

  /** The `k`-th block of `locs` is `block`. */
  predicate LaidAt(locs: seq<Url>, at: seq<nat>, k: nat, block: seq<Url>) {
    && k + 1 < |at| && at[k] + |block| == at[k + 1] <= |locs|
    && locs[at[k]..at[k + 1]] == block
  }

  lemma LaidLonger(locs: seq<Url>, at: seq<nat>, k: nat, block: seq<Url>, more: seq<Url>, end: nat)
    requires LaidAt(locs, at, k, block)
    ensures LaidAt(locs + more, at + [end], k, block)
  {
    assert (locs + more)[at[k]..at[k + 1]] == locs[at[k]..at[k + 1]];
  }

  function LocsIn(r: Response): seq<Url> {
    match r
    case UrlSet(locs) => locs
    case _ => []
  }

  lemma {:induction false} LocsInOrder(web: Web, files: seq<Url>) returns (at: seq<nat>)
    ensures LocsLaid(web, files, Locs(web, files), at)
  {
    if files == [] {
      at := [0];
    } else {
      var init, last := files[..|files| - 1], files[|files| - 1];
      var before := LocsInOrder(web, init);
      at := LaidOne(web, init, last, Locs(web, init), before);
      assert files == init + [last];
      assert Locs(web, files) == Locs(web, init) + LocsIn(web.fetch(last));
    }
  }

  lemma LaidOne(web: Web, init: seq<Url>, last: Url, locs: seq<Url>, before: seq<nat>) returns (at: seq<nat>)
    requires LocsLaid(web, init, locs, before)
    ensures LocsLaid(web, init + [last], locs + LocsIn(web.fetch(last)), at)
  {
    var files, block := init + [last], LocsIn(web.fetch(last));
    var all := locs + block;
    at := before + [|all|];
    forall k | 0 <= k < |files| ensures LaidAt(all, at, k, LocsIn(web.fetch(files[k]))) {
      if k < |init| {
        LaidLonger(locs, before, k, LocsIn(web.fetch(init[k])), block, |all|);
      }
    }
  }

  /** The discovery loop: it terminates for any responses; it fetches breadth first, at most 25
      files, and all that can be reached if that is fewer; found and errors say which of them were
      sitemaps and which posed as one; and the locations are those of the sitemaps, each once, in
      order. */
  method Discover(web: Web, candidates: seq<Url>)
    returns (files: seq<Url>, found: seq<Url>, errors: seq<Url>, locs: seq<Url>)
    ensures files == Explore(web, candidates, [])
    ensures Distinct(files) && |files| <= MAX_FILES
    ensures |files| < MAX_FILES ==> forall u :: Reachable(web, candidates, u) ==> u in files
    ensures FirstDifferent(Normalized(web, Listed(web, candidates, files)), MAX_FILES, files)
    ensures Kept(files, u => IsSitemap(web.fetch(u)), found)
    ensures Kept(files, u => web.fetch(u) == SoftNotFound, errors)
    ensures exists all: seq<Url>, at: seq<nat> ::
              LocsLaid(web, files, all, at) && FirstDifferent(all, |all|, locs)
  {
    var queue := candidates;
    var all: seq<Url> := [];
    files, found, errors := [], [], [];
    while queue != [] && |files| < MAX_FILES
      invariant |files| <= MAX_FILES && Explore(web, queue, files) == Explore(web, candidates, [])
      invariant found == Found(web, files) && errors == Impostors(web, files) && all == Locs(web, files)
      decreases MAX_FILES - |files|, |queue|
    {
      var url := web.normalize(queue[0]);
      if url in files {
        queue := queue[1..];
        continue;
      }
      OneMore(web, files, url);
      files := files + [url];
      var more;
      more, found, errors, all := Read(web, url, found, errors, all);
      queue := queue[1..] + more;
    }
    locs := Dedupe(all);
    Begin(web, candidates);
    Explored(web, candidates, candidates, []);
    ExploredInOrder(web, candidates);
    FoundAndErrors(web, files);
    DedupeIsFirst(all);
    ghost var at := LocsInOrder(web, files);
  }

  /** What is done with one fetched file. */
  method Read(web: Web, url: Url, found: seq<Url>, errors: seq<Url>, all: seq<Url>)
    returns (children: seq<Url>, found': seq<Url>, errors': seq<Url>, all': seq<Url>)
    ensures children == Children(web.fetch(url))
    ensures var r := web.fetch(url);
            && found' == found + (if r.Index? || r.UrlSet? then [url] else [])
            && all' == all + (if r.UrlSet? then r.locs else [])
            && errors' == errors + (if r.SoftNotFound? then [url] else [])
  {
    children, found', errors', all' := [], found, errors, all;
    match web.fetch(url)
    case Unusable =>
    case SoftNotFound => errors' := errors + [url];
    case Index(entries) => found', children := found + [url], entries;
    case UrlSet(entries) => found', all' := found + [url], all + entries;
  }
}
