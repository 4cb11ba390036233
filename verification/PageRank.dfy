/** Internal PageRank, in exact arithmetic.

    Pages are numbered from 0; a number that is not below the page count stands for a URL that
    was never crawled. `Next` is the textbook iteration, with the damping factor 0.85. The factor is
    written out where it is used, which keeps the arithmetic linear.
  */
module PageRank {
  import opened Sums

  const ITERATIONS := 40
  const CONVERGENCE := 0.000000001

  datatype Edge = Edge(source: nat, target: nat)

  type Rank = seq<real>

  predicate InRange(targets: seq<nat>, n: nat) {
    forall k :: 0 <= k < |targets| ==> targets[k] < n
  }

  /** Where each page links to, repeated links included. */
  type Graph = g: seq<seq<nat>> | forall u :: 0 <= u < |g| ==> InRange(g[u], |g|)

  function Count(targets: seq<nat>, v: int): nat {
    if targets == [] then 0
    else Count(targets[..|targets| - 1], v) + if targets[|targets| - 1] == v then 1 else 0
  }

  /** The share of page `u`'s authority that goes to page `v`. */
  function Share(g: Graph, u: int, v: int): real {
    if u < 0 || u >= |g| then 0.0
    else if g[u] == [] then 1.0 / |g| as real
    else Count(g[u], v) as real / |g[u]| as real
  }

  function Shares(g: Graph, u: int): Vec {
    v => Share(g, u, v)
  }

  function Of(r: Rank): Vec {
    i => if 0 <= i < |r| then r[i] else 0.0
  }

  function Minus(a: Vec, b: Vec): Vec {
    i => a(i) - b(i)
  }

  function Total(r: Rank): real {
    Sum(|r|, Of(r))
  }

  /** The L1 distance. */
  function L1(a: Rank, b: Rank): real {
    Sum(|a|, AbsOf(Minus(Of(a), Of(b))))
  }

  function Flow(g: Graph, x: Vec): Matrix {
    (u, v) => x(u) * Share(g, u, v)
  }

  function Inflow(g: Graph, x: Vec, v: int): real {
    Sum(|g|, Col(Flow(g, x), v))
  }

  function Next(g: Graph, r: Rank): (r': Rank)
    requires |g| > 0
    ensures |r'| == |g|
  {
    seq(|g|, v => 0.15 / |g| as real + 0.85 * Inflow(g, Of(r), v))
  }

  function Uniform(g: Graph): (r: Rank)
    requires |g| > 0
    ensures |r| == |g|
  {
    seq(|g|, _ => 1.0 / |g| as real)
  }

  function Iterate(g: Graph, k: nat): (r: Rank)
    requires |g| > 0
    ensures |r| == |g|
  {
    if k == 0 then Uniform(g) else Next(g, Iterate(g, k - 1))
  }

  // ---- a page's shares add up to one

  function Counts(targets: seq<nat>): Vec {
    v => Count(targets, v) as real
  }

  function OneAt(t: nat): Vec {
    v => if v == t then 1.0 else 0.0
  }

  lemma {:induction false} CountTotal(targets: seq<nat>, n: nat)
    requires InRange(targets, n)
    ensures Sum(n, Counts(targets)) == |targets| as real
  {
    if targets == [] {
      SumConst(n, 0.0);
      SumEq(n, Counts(targets), Const(0.0));
    } else {
      var init, last := targets[..|targets| - 1], targets[|targets| - 1];
      CountTotal(init, n);
      OneAtTotal(n, last);
      SumPlus(n, Counts(init), OneAt(last));
      SumEq(n, Counts(targets), Plus(Counts(init), OneAt(last)));
    }
  }

  lemma {:induction false} OneAtTotal(n: nat, t: nat)
    ensures Sum(n, OneAt(t)) == if t < n then 1.0 else 0.0
  {
    if n > 0 {
      OneAtTotal(n - 1, t);
    }
  }

  lemma SharesTotal(g: Graph, u: nat)
    requires u < |g|
    ensures Sum(|g|, Shares(g, u)) == 1.0
  {
    var n := |g|;
    if g[u] == [] {
      SumConst(n, 1.0 / n as real);
      SumEq(n, Shares(g, u), Const(1.0 / n as real));
    } else {
      var d := |g[u]| as real;
      CountTotal(g[u], n);
      SumScaled(n, 1.0 / d, Counts(g[u]));
      SumEq(n, Shares(g, u), Scaled(1.0 / d, Counts(g[u])));
    }
  }

  /** Summed over all pages, what flows in is what there was. */
  lemma FlowTotal(g: Graph, x: Vec)
    ensures Sum(|g|, ColSums(Flow(g, x), |g|)) == Sum(|g|, x)
  {
    var n := |g|;
    SumSwap(n, n, Flow(g, x));
    forall u | 0 <= u < n ensures RowSums(Flow(g, x), n)(u) == x(u) {
      SumScaled(n, x(u), Shares(g, u));
      SumEq(n, Row(Flow(g, x), u), Scaled(x(u), Shares(g, u)));
      SharesTotal(g, u);
    }
    SumEq(n, RowSums(Flow(g, x), n), x);
  }

  // ---- mass and positivity

  /** An iteration keeps total rank one. */
  lemma NextTotal(g: Graph, r: Rank)
    requires |g| > 0 && |r| == |g|
    ensures Total(Next(g, r)) == 0.15 + 0.85 * Total(r)
  {
    var n := |g|;
    var base := 0.15 / n as real;
    var inflow := ColSums(Flow(g, Of(r)), n);
    FlowTotal(g, Of(r));
    SumScaled(n, 0.85, inflow);
    SumConst(n, base);
    SumPlus(n, Const(base), Scaled(0.85, inflow));
    SumEq(n, Of(Next(g, r)), Plus(Const(base), Scaled(0.85, inflow)));
    assert n as real * base == 0.15;
  }

  predicate NonNegative(r: Rank) {
    forall i :: 0 <= i < |r| ==> r[i] >= 0.0
  }

  /** Every page gets at least an equal part of the undamped rest. */
  lemma NextFloor(g: Graph, r: Rank)
    requires |g| > 0 && |r| == |g| && NonNegative(r)
    ensures forall v :: 0 <= v < |g| ==> Next(g, r)[v] >= 0.15 / |g| as real
  {
    forall v | 0 <= v < |g| ensures Next(g, r)[v] >= 0.15 / |g| as real {
      FlowNonNegative(g, r, v);
      SumPositive(|g|, Col(Flow(g, Of(r)), v));
    }
  }

  lemma FlowNonNegative(g: Graph, r: Rank, v: int)
    requires NonNegative(r)
    ensures forall u :: 0 <= u < |g| ==> Col(Flow(g, Of(r)), v)(u) >= 0.0
  {
    forall u | 0 <= u < |g| ensures Col(Flow(g, Of(r)), v)(u) >= 0.0 {
      Product(Of(r)(u), Share(g, u, v));
    }
  }

  lemma Product(a: real, b: real)
    requires a >= 0.0 && b >= 0.0
    ensures a * b >= 0.0
  {
  }

  /** Every iterate is a distribution: total rank exactly one, and nobody below 0.15/n. */
  lemma {:induction false} IterateIsDistribution(g: Graph, k: nat)
    requires |g| > 0
    ensures Total(Iterate(g, k)) == 1.0
    ensures forall v :: 0 <= v < |g| ==> Iterate(g, k)[v] >= 0.15 / |g| as real
  {
    if k == 0 {
      UniformIsDistribution(g);
    } else {
      var r := Iterate(g, k - 1);
      IterateIsDistribution(g, k - 1);
      assert NonNegative(r) by {
        assert 0.15 / |g| as real >= 0.0;
      }
      NextTotal(g, r);
      NextFloor(g, r);
    }
  }

  lemma UniformIsDistribution(g: Graph)
    requires |g| > 0
    ensures Total(Uniform(g)) == 1.0
    ensures forall v :: 0 <= v < |g| ==> Uniform(g)[v] >= 0.15 / |g| as real
  {
    var n := |g|;
    SumConst(n, 1.0 / n as real);
    SumEq(n, Of(Uniform(g)), Const(1.0 / n as real));
  }

  // ---- contraction

  /** One iteration brings any two vectors closer by the damping factor, whatever the graph. */
  lemma NextContracts(g: Graph, a: Rank, b: Rank)
    requires |g| > 0 && |a| == |g| && |b| == |g|
    ensures L1(Next(g, a), Next(g, b)) <= 0.85 * L1(a, b)
  {
    var n := |g|;
    var x := Minus(Of(a), Of(b));
    var flow := ColSums(Flow(g, AbsOf(x)), n);
    var gap := AbsOf(Minus(Of(Next(g, a)), Of(Next(g, b))));
    forall v | 0 <= v < n ensures gap(v) <= Scaled(0.85, flow)(v) {
      GapAt(g, a, b, v);
    }
    SumLe(n, gap, Scaled(0.85, flow));
    SumScaled(n, 0.85, flow);
    FlowTotal(g, AbsOf(x));
  }

  lemma GapAt(g: Graph, a: Rank, b: Rank, v: nat)
    requires |g| > 0 && |a| == |g| && |b| == |g| && v < |g|
    ensures Abs(Next(g, a)[v] - Next(g, b)[v])
         <= 0.85 * Inflow(g, AbsOf(Minus(Of(a), Of(b))), v)
  {
    var x := Minus(Of(a), Of(b));
    FlowLinear(g, Of(a), Of(b), v);
    assert Next(g, a)[v] - Next(g, b)[v] == 0.85 * Inflow(g, x, v);
    InflowAbs(g, x, v);
  }

  /** What flows in is at most what would flow in without cancelling. */
  lemma InflowAbs(g: Graph, x: Vec, v: nat)
    ensures Abs(Inflow(g, x, v)) <= Inflow(g, AbsOf(x), v)
  {
    var n := |g|;
    SumAbs(n, Col(Flow(g, x), v));
    forall u | 0 <= u < n ensures AbsOf(Col(Flow(g, x), v))(u) <= Col(Flow(g, AbsOf(x)), v)(u) {
      AbsProduct(x(u), Share(g, u, v));
      assert Col(Flow(g, x), v)(u) == x(u) * Share(g, u, v);
      assert Col(Flow(g, AbsOf(x)), v)(u) == Abs(x(u)) * Share(g, u, v);
    }
    SumLe(n, AbsOf(Col(Flow(g, x), v)), Col(Flow(g, AbsOf(x)), v));
  }

  lemma AbsProduct(x: real, s: real)
    requires s >= 0.0
    ensures Abs(x * s) == Abs(x) * s
  {
    if x < 0.0 {
      Product(-x, s);
    } else {
      Product(x, s);
    }
  }

  lemma FlowLinear(g: Graph, a: Vec, b: Vec, v: int)
    ensures Inflow(g, a, v) - Inflow(g, b, v) == Inflow(g, Minus(a, b), v)
  {
    var n := |g|;
    SumPlus(n, Col(Flow(g, Minus(a, b)), v), Col(Flow(g, b), v));
    forall u | 0 <= u < n
      ensures Col(Flow(g, a), v)(u) == Plus(Col(Flow(g, Minus(a, b)), v), Col(Flow(g, b), v))(u)
    {
      FlowAt(g, a, b, u, v);
    }
    SumEq(n, Col(Flow(g, a), v), Plus(Col(Flow(g, Minus(a, b)), v), Col(Flow(g, b), v)));
  }

  lemma FlowAt(g: Graph, a: Vec, b: Vec, u: int, v: int)
    ensures Col(Flow(g, a), v)(u) == Plus(Col(Flow(g, Minus(a, b)), v), Col(Flow(g, b), v))(u)
  {
    assert Col(Flow(g, a), v)(u) == a(u) * Share(g, u, v);
    assert Col(Flow(g, b), v)(u) == b(u) * Share(g, u, v);
    assert Col(Flow(g, Minus(a, b)), v)(u) == (a(u) - b(u)) * Share(g, u, v);
    Distribute(a(u), b(u), Share(g, u, v));
  }

  lemma Distribute(a: real, b: real, s: real)
    ensures a * s == (a - b) * s + b * s
  {
  }
}
