/** The link authority of pages, computed the way the service does it: shares along edges, the mass
    of dead ends over all pages, until little changes.
  */
module LinkAuthority {
  import opened Sums
  import opened PageRank
  import opened Convergence
  import opened Scores

  /** The crawled targets of the links of page `u`, in order. */
  function TargetsOf(n: nat, edges: seq<Edge>, u: nat): (t: seq<nat>)
    ensures InRange(t, n)
  {
    if edges == [] then []
    else
      var last := edges[|edges| - 1];
      TargetsOf(n, edges[..|edges| - 1], u) + if last.source == u && last.target < n then [last.target] else []
  }

  // ---- the graph that is ranked

  /** The links from page `u` to page `v`. */
  function Links(edges: seq<Edge>, u: nat, v: nat): set<nat> {
    set k | 0 <= k < |edges| && edges[k] == Edge(u, v)
  }

  /** The links from page `u` to pages that were crawled. */
  function LinksOut(n: nat, edges: seq<Edge>, u: nat): set<nat> {
    set k | 0 <= k < |edges| && edges[k].source == u && edges[k].target < n
  }

  predicate IsPage(n: nat, edges: seq<Edge>, targets: seq<nat>, u: nat) {
    && |targets| == |LinksOut(n, edges, u)|
    && forall v :: 0 <= v < n ==> Count(targets, v) == |Links(edges, u, v)|
  }

  /** Page `v` stands under page `u` once for every link from `u` to `v`, and nothing else does. */
  predicate IsGraph(n: nat, edges: seq<Edge>, g: Graph) {
    |g| == n && forall u :: 0 <= u < n ==> IsPage(n, edges, g[u], u)
  }

  lemma {:induction false} TargetsArePage(n: nat, edges: seq<Edge>, u: nat)
    ensures IsPage(n, edges, TargetsOf(n, edges, u), u)
  {
    if edges != [] {
      var k := |edges| - 1;
      var head, last := edges[..k], edges[k];
      TargetsArePage(n, head, u);
      LinksOutNext(n, edges, u);
      forall v | 0 <= v < n ensures Count(TargetsOf(n, edges, u), v) == |Links(edges, u, v)| {
        LinksNext(edges, u, v);
        OneMoreTarget(TargetsOf(n, head, u), last.target, v);
      }
    }
  }

  lemma LinksNext(edges: seq<Edge>, u: nat, v: nat)
    requires edges != []
    ensures var k := |edges| - 1;
            |Links(edges, u, v)| == |Links(edges[..k], u, v)| + if edges[k] == Edge(u, v) then 1 else 0
  {
    var k := |edges| - 1;
    assert Links(edges, u, v) == Links(edges[..k], u, v) + if edges[k] == Edge(u, v) then {k} else {};
  }

  lemma LinksOutNext(n: nat, edges: seq<Edge>, u: nat)
    requires edges != []
    ensures var k := |edges| - 1;
            |LinksOut(n, edges, u)| ==
              |LinksOut(n, edges[..k], u)| + if edges[k].source == u && edges[k].target < n then 1 else 0
  {
    var k := |edges| - 1;
    assert LinksOut(n, edges, u) ==
           LinksOut(n, edges[..k], u) + if edges[k].source == u && edges[k].target < n then {k} else {};
  }

  lemma OneMoreTarget(targets: seq<nat>, t: nat, v: nat)
    ensures Count(targets + [t], v) == Count(targets, v) + if t == v then 1 else 0
    ensures targets + [] == targets
  {
    assert (targets + [t])[..|targets|] == targets;
  }

  /** The share of page `u`'s rank that goes to page `v`, by the links themselves. */
  function LinkShare(n: nat, edges: seq<Edge>, u: nat, v: nat): real
    requires n > 0
  {
    if LinksOut(n, edges, u) == {} then 1.0 / n as real
    else |Links(edges, u, v)| as real / |LinksOut(n, edges, u)| as real
  }

  function LinkInflow(n: nat, edges: seq<Edge>, r: Rank, v: nat): Vec
    requires n > 0 && |r| == n
  {
    u => if 0 <= u < n then r[u] * LinkShare(n, edges, u, v) else 0.0
  }

  /** An iteration, by the links themselves: 15% spread over all pages, and 85% of every page's rank
      split evenly over its links, or over all pages if it has none. */
  lemma NextByLinks(n: nat, edges: seq<Edge>, g: Graph, r: Rank, v: nat)
    requires IsGraph(n, edges, g) && |r| == n && v < n
    ensures Next(g, r)[v] == 0.15 / n as real + 0.85 * Sum(n, LinkInflow(n, edges, r, v))
  {
    var inflow := Col(Flow(g, Of(r)), v);
    forall u | 0 <= u < n ensures inflow(u) == LinkInflow(n, edges, r, v)(u) {
      assert IsPage(n, edges, g[u], u);
      assert LinksOut(n, edges, u) == {} <==> g[u] == [];
      assert Share(g, u, v) == LinkShare(n, edges, u, v);
    }
    SumEq(n, inflow, LinkInflow(n, edges, r, v));
  }

  /** Group the edges by page. Links from or to URLs that were never crawled play no part. */
  method BuildOutgoing(n: nat, edges: seq<Edge>) returns (g: Graph)
    ensures IsGraph(n, edges, g)
  {
    var out: seq<seq<nat>> := seq(n, _ => []);
    for i := 0 to |edges|
      invariant |out| == n
      invariant forall u :: 0 <= u < n ==> out[u] == TargetsOf(n, edges[..i], u)
    {
      assert edges[..i + 1][..i] == edges[..i];
      var e := edges[i];
      if e.target < n && e.source < n {
        out := out[e.source := out[e.source] + [e.target]];
      }
    }
    assert edges[..|edges|] == edges;
    forall u | 0 <= u < n ensures IsPage(n, edges, out[u], u) {
      TargetsArePage(n, edges, u);
    }
    g := out;
  }

  function DeadEnds(g: Graph, r: Rank): Vec {
    u => if 0 <= u < |g| && g[u] == [] then Of(r)(u) else 0.0
  }

  /** What page `u` passes along its links to page `v`. */
  function Along(g: Graph, r: Rank): Matrix {
    (u, v) => if 0 <= u < |g| && g[u] == [] then 0.0 else 0.85 * (Of(r)(u) * Share(g, u, v))
  }

  /** Spreading the dead ends' mass evenly and the rest along links is the textbook iteration. */
  lemma SpreadIsNext(g: Graph, r: Rank, v: nat)
    requires |g| > 0 && |r| == |g| && v < |g|
    ensures 0.15 / |g| as real + 0.85 * Sum(|g|, DeadEnds(g, r)) / |g| as real
              + Sum(|g|, Col(Along(g, r), v)) == Next(g, r)[v]
  {
    SpreadTotal(g, r, v);
    OneSum(0.15 / |g| as real, Sum(|g|, DeadEnds(g, r)), |g| as real, Sum(|g|, Col(Along(g, r), v)),
           0.85 * Inflow(g, Of(r), v));
    assert Next(g, r)[v] == 0.15 / |g| as real + 0.85 * Inflow(g, Of(r), v);
  }

  lemma SpreadTotal(g: Graph, r: Rank, v: nat)
    requires |g| > 0 && |r| == |g| && v < |g|
    ensures 0.85 / |g| as real * Sum(|g|, DeadEnds(g, r)) + Sum(|g|, Col(Along(g, r), v))
         == 0.85 * Inflow(g, Of(r), v)
  {
    var n := |g|;
    var even, along := Scaled(0.85 / n as real, DeadEnds(g, r)), Col(Along(g, r), v);
    var inflow := Scaled(0.85, Col(Flow(g, Of(r)), v));
    forall u | 0 <= u < n ensures Plus(even, along)(u) == inflow(u) {
      SpreadAt(g, r, u, v);
    }
    SumEq(n, Plus(even, along), inflow);
    SumPlus(n, even, along);
    SumScaled(n, 0.85 / n as real, DeadEnds(g, r));
    SumScaled(n, 0.85, Col(Flow(g, Of(r)), v));
  }

  lemma SpreadAt(g: Graph, r: Rank, u: nat, v: nat)
    requires |g| > 0 && |r| == |g| && u < |g|
    ensures Plus(Scaled(0.85 / |g| as real, DeadEnds(g, r)), Col(Along(g, r), v))(u)
         == Scaled(0.85, Col(Flow(g, Of(r)), v))(u)
  {
    var c := 0.85 / |g| as real;
    assert Of(r)(u) == r[u];
    assert Flow(g, Of(r))(u, v) == r[u] * Share(g, u, v);
    assert Col(Flow(g, Of(r)), v)(u) == r[u] * Share(g, u, v);
    assert Scaled(c, DeadEnds(g, r))(u) == c * DeadEnds(g, r)(u);
    if g[u] == [] {
      assert DeadEnds(g, r)(u) == r[u];
      assert Col(Along(g, r), v)(u) == 0.0;
      Rearrange(r[u], |g| as real);
    } else {
      assert DeadEnds(g, r)(u) == 0.0;
      assert Col(Along(g, r), v)(u) == 0.85 * (r[u] * Share(g, u, v));
    }
  }

  lemma OneSum(base: real, x: real, n: real, along: real, all: real)
    requires n > 0.0 && 0.85 / n * x + along == all
    ensures base + 0.85 * x / n + along == base + all
  {
    FlipDivision(x, n);
  }

  lemma FlipDivision(x: real, n: real)
    requires n > 0.0
    ensures 0.85 / n * x == 0.85 * x / n
  {
  }

  lemma Rearrange(x: real, n: real)
    requires n > 0.0
    ensures 0.85 / n * x == 0.85 * (x * (1.0 / n))
  {
  }

  lemma ShareTimes(x: real, d: real, c: real)
    requires d > 0.0
    ensures 0.85 * x / d * c == 0.85 * (x * (c / d))
  {
    assert x * (c / d) == x * c / d;
  }

  /** Pass one page's rank along its links, a share for every link. */
  method SpreadPage(g: Graph, r: Rank, u: nat, acc: Rank) returns (acc': Rank)
    requires |g| > 0 && |r| == |g| && |acc| == |g| && u < |g| && g[u] != []
    ensures |acc'| == |g|
    ensures forall v :: 0 <= v < |g| ==> acc'[v] == acc[v] + Along(g, r)(u, v)
  {
    var targets := g[u];
    var share := 0.85 * r[u] / |targets| as real;
    acc' := AddShares(targets, |g|, share, acc);
    forall v | 0 <= v < |g| ensures acc'[v] == acc[v] + Along(g, r)(u, v) {
      AlongIs(g, r, u, v);
      ReceivedIs(share, targets, v);
    }
  }

  lemma AlongIs(g: Graph, r: Rank, u: nat, v: nat)
    requires |r| == |g| && u < |g| && g[u] != []
    ensures Along(g, r)(u, v) == 0.85 * r[u] / |g[u]| as real * Count(g[u], v) as real
  {
    assert Of(r)(u) == r[u];
    ShareTimes(r[u], |g[u]| as real, Count(g[u], v) as real);
  }

  /** What page `v` gets when every link passes on `share`. */
  function Received(share: real, targets: seq<nat>, v: int): real {
    if targets == [] then 0.0
    else Received(share, targets[..|targets| - 1], v) + if targets[|targets| - 1] == v then share else 0.0
  }

  lemma {:induction false} ReceivedIs(share: real, targets: seq<nat>, v: int)
    ensures Received(share, targets, v) == share * Count(targets, v) as real
  {
    if targets != [] {
      ReceivedIs(share, targets[..|targets| - 1], v);
      OneMoreShare(share, Count(targets[..|targets| - 1], v));
    }
  }

  lemma OneMoreShare(share: real, c: nat)
    ensures share * (c + 1) as real == share * c as real + share
  {
  }

  method AddShares(targets: seq<nat>, n: nat, share: real, acc: Rank) returns (acc': Rank)
    requires InRange(targets, n) && |acc| == n
    ensures |acc'| == n
    ensures forall v :: 0 <= v < n ==> acc'[v] == acc[v] + Received(share, targets, v)
  {
    acc' := acc;
    for k := 0 to |targets|
      invariant |acc'| == n
      invariant forall v :: 0 <= v < n ==> acc'[v] == acc[v] + Received(share, targets[..k], v)
    {
      assert targets[..k + 1][..k] == targets[..k];
      acc' := acc'[targets[k] := acc'[targets[k]] + share];
    }
    assert targets[..|targets|] == targets;
  }

  /** One pass over the graph. */
  method NextRank(g: Graph, r: Rank) returns (r': Rank)
    requires |g| > 0 && |r| == |g|
    ensures r' == Next(g, r)
  {
    var n := |g|;
    var leaked := 0.0;
    for u := 0 to n
      invariant leaked == Sum(u, DeadEnds(g, r))
    {
      assert Of(r)(u) == r[u];
      assert DeadEnds(g, r)(u) == if g[u] == [] then r[u] else 0.0;
      if g[u] == [] {
        leaked := leaked + r[u];
      }
    }
    var base := 0.15 / n as real + 0.85 * leaked / n as real;
    r' := seq(n, _ => base);
    for u := 0 to n
      invariant |r'| == n
      invariant forall v :: 0 <= v < n ==> r'[v] == base + Sum(u, Col(Along(g, r), v))
    {
      ghost var before := r';
      if g[u] != [] {
        r' := SpreadPage(g, r, u, r');
      }
      forall v | 0 <= v < n ensures r'[v] == base + Sum(u + 1, Col(Along(g, r), v)) {
        assert Col(Along(g, r), v)(u) == Along(g, r)(u, v);
        assert r'[v] == before[v] + Along(g, r)(u, v);
      }
    }
    forall v | 0 <= v < n ensures r'[v] == Next(g, r)[v] {
      SpreadIsNext(g, r, v);
    }
  }

  method Change(a: Rank, b: Rank) returns (d: real)
    requires |a| == |b|
    ensures d == L1(a, b)
  {
    d := 0.0;
    for i := 0 to |a|
      invariant d == Sum(i, AbsOf(Minus(Of(a), Of(b))))
    {
      d := d + Abs(a[i] - b[i]);
    }
  }

  method Top(r: Rank) returns (top: real)
    requires r != []
    ensures top in r && forall i :: 0 <= i < |r| ==> r[i] <= top
  {
    top := r[0];
    for i := 1 to |r|
      invariant top in r && forall j :: 0 <= j < i ==> r[j] <= top
    {
      if top < r[i] {
        top := r[i];
      }
    }
  }

  /** Iterate until the change is small or the limit is reached. */
  method Converge(g: Graph) returns (rank: Rank, k: nat)
    requires |g| > 0
    ensures 1 <= k <= ITERATIONS && rank == Iterate(g, k)
    ensures k == ITERATIONS || L1(Iterate(g, k), Iterate(g, k - 1)) < CONVERGENCE
    ensures forall j :: 1 <= j < k ==> L1(Iterate(g, j), Iterate(g, j - 1)) >= CONVERGENCE
  {
    rank, k := Uniform(g), 0;
    while k < ITERATIONS
      invariant k <= ITERATIONS && rank == Iterate(g, k)
      invariant forall j :: 1 <= j <= k ==> L1(Iterate(g, j), Iterate(g, j - 1)) >= CONVERGENCE
    {
      var next := NextRank(g, rank);
      var change := Change(next, rank);
      rank, k := next, k + 1;
      if change < CONVERGENCE {
        return;
      }
    }
  }

  /** The ranks the iteration goes through, by the links themselves, from equal ranks on. */
  ghost predicate Goes(n: nat, edges: seq<Edge>, ranks: seq<Rank>) {
    && n > 0 && ranks != [] && (forall j :: 0 <= j < |ranks| ==> |ranks[j]| == n)
    && (forall v :: 0 <= v < n ==> ranks[0][v] == 1.0 / n as real)
    && (forall j, v :: 1 <= j < |ranks| && 0 <= v < n ==>
          ranks[j][v] == 0.15 / n as real + 0.85 * Sum(n, LinkInflow(n, edges, ranks[j - 1], v)))
  }

  /** It stops after 40 rounds, or at the first that changes less than the threshold. */
  ghost predicate Stops(ranks: seq<Rank>) {
    && 2 <= |ranks| <= 41 && (forall j :: 0 <= j < |ranks| ==> |ranks[j]| == |ranks[0]|)
    && (forall j :: 1 <= j < |ranks| - 1 ==> L1(ranks[j], ranks[j - 1]) >= 0.000000001)
    && (|ranks| == 41 || L1(ranks[|ranks| - 1], ranks[|ranks| - 2]) < 0.000000001)
  }

  function Iterates(g: Graph, k: nat): (r: seq<Rank>)
    requires |g| > 0
    ensures |r| == k + 1 && forall j :: 0 <= j <= k ==> r[j] == Iterate(g, j)
  {
    seq(k + 1, j requires 0 <= j => Iterate(g, j))
  }

  lemma IterateGoes(n: nat, edges: seq<Edge>, g: Graph, j: nat, v: nat)
    requires n > 0 && IsGraph(n, edges, g) && j >= 1 && v < n
    ensures Iterate(g, j)[v] == 0.15 / n as real + 0.85 * Sum(n, LinkInflow(n, edges, Iterate(g, j - 1), v))
  {
    NextByLinks(n, edges, g, Iterate(g, j - 1), v);
  }

  lemma IteratesGo(n: nat, edges: seq<Edge>, g: Graph, k: nat)
    requires n > 0 && IsGraph(n, edges, g)
    ensures Goes(n, edges, Iterates(g, k))
  {
    var ranks := Iterates(g, k);
    assert ranks[0] == Uniform(g);
    forall j, v | 1 <= j < |ranks| && 0 <= v < n
      ensures ranks[j][v] == 0.15 / n as real + 0.85 * Sum(n, LinkInflow(n, edges, ranks[j - 1], v))
    {
      IterateGoes(n, edges, g, j, v);
    }
  }

  lemma IteratesStop(g: Graph, k: nat)
    requires |g| > 0 && 1 <= k <= ITERATIONS
    requires k == ITERATIONS || L1(Iterate(g, k), Iterate(g, k - 1)) < CONVERGENCE
    requires forall j :: 1 <= j < k ==> L1(Iterate(g, j), Iterate(g, j - 1)) >= CONVERGENCE
    ensures Stops(Iterates(g, k))
  {
  }

  /** The scores are those of the rank the iteration stops at, which every later one stays near. */
  ghost predicate Ranked(n: nat, edges: seq<Edge>, g: Graph, k: nat, scores: seq<real>) {
    && n > 0 && IsGraph(n, edges, g) && Converged(g, k)
    && Goes(n, edges, Iterates(g, k)) && Stops(Iterates(g, k)) && ScoresOf(Iterates(g, k)[k], scores)
  }

  /** The scores of the pages. Every score is between 0 and 100 in steps of a tenth, the best page scores 100, no
      page scores below one of lower rank, and no score is further than half a tenth from its share
      of the best rank. */
  method Authority(n: nat, edges: seq<Edge>) returns (scores: seq<real>, k: nat)
    ensures |scores| == n && (n == 0 ==> k == 0)
    ensures n > 0 ==> exists g: Graph :: Ranked(n, edges, g, k, scores)
  {
    if n == 0 {
      return [], 0;
    }
    var g := BuildOutgoing(n, edges);
    var rank;
    rank, k := Converge(g);
    StopsConverged(g, k);
    var top := Top(rank);
    assert forall i :: 0 <= i < n ==> 0.0 < rank[i] by {
      IterateIsDistribution(g, k);
      assert 0.15 / n as real > 0.0;
    }
    scores := seq(n, i requires 0 <= i < n => Score(rank[i], top));
    ScoresFit(n, rank, top, scores);
    IteratesGo(n, edges, g, k);
    IteratesStop(g, k);
    assert Ranked(n, edges, g, k, scores);
  }
}
