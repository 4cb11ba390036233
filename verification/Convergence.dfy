/** How fast the iteration settles: changes shrink, all later iterates stay near, and there is at
    most one fixed point.
  */
module Convergence {
  import opened Sums
  import opened PageRank

  function Power(k: nat): real {
    if k == 0 then 1.0 else 0.85 * Power(k - 1)
  }

  lemma {:induction false} PowerPositive(k: nat)
    ensures Power(k) > 0.0
  {
    if k > 0 {
      PowerPositive(k - 1);
    }
  }

  lemma GapAtIndex(a: Vec, b: Vec, i: int)
    ensures AbsOf(Minus(a, b))(i) == Abs(a(i) - b(i))
  {
    assert Minus(a, b)(i) == a(i) - b(i);
  }

  /** Two distributions are never further apart than two. */
  lemma DistributionsNear(a: Rank, b: Rank)
    requires |a| == |b| && NonNegative(a) && NonNegative(b)
    ensures L1(a, b) <= Total(a) + Total(b)
  {
    SumPlus(|a|, Of(a), Of(b));
    forall i | 0 <= i < |a| ensures AbsOf(Minus(Of(a), Of(b)))(i) <= Plus(Of(a), Of(b))(i) {
      GapAtIndex(Of(a), Of(b), i);
      assert Plus(Of(a), Of(b))(i) == a[i] + b[i];
    }
    SumLe(|a|, AbsOf(Minus(Of(a), Of(b))), Plus(Of(a), Of(b)));
  }

  /** The k-th change is at most 2 * 0.85^k. */
  lemma {:induction false} ChangeBound(g: Graph, k: nat)
    requires |g| > 0
    ensures L1(Iterate(g, k + 1), Iterate(g, k)) <= 2.0 * Power(k)
  {
    if k == 0 {
      IterateIsDistribution(g, 0);
      IterateIsDistribution(g, 1);
      assert 0.15 / |g| as real >= 0.0;
      DistributionsNear(Iterate(g, 1), Iterate(g, 0));
    } else {
      ChangeBound(g, k - 1);
      NextContracts(g, Iterate(g, k), Iterate(g, k - 1));
    }
  }

  predicate Fixed(g: Graph, x: Rank) {
    |g| > 0 && |x| == |g| && Next(g, x) == x
  }

  lemma SelfDistance(a: Rank, b: Rank)
    requires |a| == |b| && L1(a, b) <= 0.0
    ensures a == b
  {
    forall i | 0 <= i < |a| ensures AbsOf(Minus(Of(a), Of(b)))(i) == Abs(a[i] - b[i]) {
      GapAtIndex(Of(a), Of(b), i);
    }
    SumPositive(|a|, AbsOf(Minus(Of(a), Of(b))));
    forall i | 0 <= i < |a| ensures a[i] == b[i] {
      assert AbsOf(Minus(Of(a), Of(b)))(i) <= 0.0;
    }
  }

  /** There is at most one fixed point. */
  lemma FixedIsUnique(g: Graph, x: Rank, y: Rank)
    requires Fixed(g, x) && Fixed(g, y)
    ensures x == y
  {
    NextContracts(g, x, y);
    SelfDistance(x, y);
  }

  function Zero(n: nat): (z: Rank)
    ensures |z| == n
  {
    seq(n, _ => 0.0)
  }

  /** A fixed point is a distribution, though nobody asked it to be. */
  lemma FixedIsDistribution(g: Graph, x: Rank)
    requires Fixed(g, x)
    ensures Total(x) == 1.0 && NonNegative(x)
  {
    var n := |g|;
    NextTotal(g, x);
    FixedAbsTotal(g, x);
    var slack := Plus(AbsOf(Of(x)), Scaled(-1.0, Of(x)));
    SumScaled(n, -1.0, Of(x));
    SumPlus(n, AbsOf(Of(x)), Scaled(-1.0, Of(x)));
    assert Sum(n, slack) <= 0.0;
    forall i | 0 <= i < n ensures slack(i) == Abs(x[i]) - x[i] {
      assert AbsOf(Of(x))(i) == Abs(x[i]) && Scaled(-1.0, Of(x))(i) == -1.0 * x[i];
    }
    SumPositive(n, slack);
    forall i | 0 <= i < n ensures x[i] >= 0.0 {
      assert slack(i) <= Sum(n, slack);
    }
  }

  /** The absolute values of a fixed point add up to at most one. */
  lemma FixedAbsTotal(g: Graph, x: Rank)
    requires Fixed(g, x)
    ensures Sum(|g|, AbsOf(Of(x))) <= 1.0
  {
    var n := |g|;
    var zero := Zero(n);
    var away := Next(g, zero);
    NextContracts(g, x, zero);
    FromNothing(g, zero);
    AbsTotals(x, zero, away);
  }

  /** One iteration from no rank at all leaves the undamped rest. */
  lemma FromNothing(g: Graph, zero: Rank)
    requires |g| > 0 && zero == Zero(|g|)
    ensures Total(Next(g, zero)) == 0.15 && NonNegative(Next(g, zero))
  {
    NextTotal(g, zero);
    SumConst(|g|, 0.0);
    SumEq(|g|, Of(zero), Const(0.0));
    NextFloor(g, zero);
    assert 0.15 / |g| as real >= 0.0;
  }

  /** |x| is at most the distance to `away` plus `away` itself. */
  lemma AbsTotals(x: Rank, zero: Rank, away: Rank)
    requires |x| == |zero| == |away| && zero == Zero(|x|) && NonNegative(away)
    ensures Sum(|x|, AbsOf(Of(x))) == L1(x, zero)
    ensures Sum(|x|, AbsOf(Of(x))) <= L1(x, away) + Total(away)
  {
    var n := |x|;
    forall i | 0 <= i < n
      ensures AbsOf(Minus(Of(x), Of(zero)))(i) == AbsOf(Of(x))(i)
      ensures AbsOf(Of(x))(i) <= Plus(AbsOf(Minus(Of(x), Of(away))), Of(away))(i)
    {
      GapAtIndex(Of(x), Of(zero), i);
      GapAtIndex(Of(x), Of(away), i);
      assert AbsOf(Of(x))(i) == Abs(x[i]);
      assert Plus(AbsOf(Minus(Of(x), Of(away))), Of(away))(i) == Abs(x[i] - away[i]) + away[i];
    }
    SumEq(n, AbsOf(Minus(Of(x), Of(zero))), AbsOf(Of(x)));
    SumPlus(n, AbsOf(Minus(Of(x), Of(away))), Of(away));
    SumLe(n, AbsOf(Of(x)), Plus(AbsOf(Minus(Of(x), Of(away))), Of(away)));
  }

  /** After k iterations the ranks are within 2 * 0.85^k of the fixed point, if there is one. */
  lemma {:induction false} IterateNearFixed(g: Graph, k: nat, x: Rank)
    requires Fixed(g, x)
    ensures L1(Iterate(g, k), x) <= 2.0 * Power(k)
  {
    if k == 0 {
      FixedIsDistribution(g, x);
      IterateIsDistribution(g, 0);
      assert 0.15 / |g| as real >= 0.0;
      DistributionsNear(Iterate(g, 0), x);
    } else {
      IterateNearFixed(g, k - 1, x);
      NextContracts(g, Iterate(g, k - 1), x);
    }
  }

  lemma Triangle(a: Rank, b: Rank, c: Rank)
    requires |a| == |b| == |c|
    ensures L1(a, c) <= L1(a, b) + L1(b, c) && L1(a, b) == L1(b, a)
  {
    var n := |a|;
    var ab, bc, ac := AbsOf(Minus(Of(a), Of(b))), AbsOf(Minus(Of(b), Of(c))), AbsOf(Minus(Of(a), Of(c)));
    var ba := AbsOf(Minus(Of(b), Of(a)));
    forall i | 0 <= i < n ensures ac(i) <= Plus(ab, bc)(i) && ab(i) == ba(i) {
      GapAtIndex(Of(a), Of(b), i);
      GapAtIndex(Of(b), Of(c), i);
      GapAtIndex(Of(a), Of(c), i);
      GapAtIndex(Of(b), Of(a), i);
      assert Plus(ab, bc)(i) == ab(i) + bc(i);
    }
    SumPlus(n, ab, bc);
    SumLe(n, ac, Plus(ab, bc));
    SumEq(n, ab, ba);
  }

  /** However many more iterations are made after the k-th, the ranks stay within 2 * 0.85^k. */
  lemma {:induction false} IteratesStayNear(g: Graph, k: nat, j: nat)
    requires |g| > 0
    ensures L1(Iterate(g, k + j), Iterate(g, k)) <= 2.0 * Power(k)
    decreases k
  {
    if k == 0 {
      IterateIsDistribution(g, 0);
      IterateIsDistribution(g, j);
      assert 0.15 / |g| as real >= 0.0;
      DistributionsNear(Iterate(g, j), Iterate(g, 0));
    } else {
      IteratesStayNear(g, k - 1, j);
      NextContracts(g, Iterate(g, k - 1 + j), Iterate(g, k - 1));
    }
  }

  /** However many more iterations are made after one with change c, the ranks stay within 17/3 * c. */
  lemma {:induction false} StopsNear(g: Graph, k: nat, j: nat)
    requires |g| > 0 && k > 0
    ensures L1(Iterate(g, k + j), Iterate(g, k)) <= 17.0 / 3.0 * L1(Iterate(g, k), Iterate(g, k - 1))
    decreases j
  {
    var here, before := Iterate(g, k), Iterate(g, k - 1);
    if j == 0 {
      SelfIsNear(here, before);
    } else {
      var last := Iterate(g, k + j - 1);
      StopsNear(g, k, j - 1);
      NextContracts(g, last, before);
      Triangle(last, here, before);
    }
  }

  lemma SelfIsNear(a: Rank, b: Rank)
    requires |a| == |b|
    ensures L1(a, a) == 0.0 <= L1(a, b)
  {
    var n := |a|;
    forall i | 0 <= i < n
      ensures AbsOf(Minus(Of(a), Of(a)))(i) == 0.0 && AbsOf(Minus(Of(a), Of(b)))(i) >= 0.0
    {
      GapAtIndex(Of(a), Of(a), i);
      GapAtIndex(Of(a), Of(b), i);
    }
    SumEq(n, AbsOf(Minus(Of(a), Of(a))), Const(0.0));
    SumConst(n, 0.0);
    SumPositive(n, AbsOf(Minus(Of(a), Of(b))));
  }

  /** How near the ranks an audit stops with are to all later ones. */
  function StopBound(k: nat): real {
    if k == ITERATIONS then 2.0 * Power(k) else 17.0 / 3.0 * CONVERGENCE
  }

  ghost predicate Converged(g: Graph, k: nat)
    requires |g| > 0
  {
    forall m: nat :: m >= k ==> L1(Iterate(g, m), Iterate(g, k)) <= StopBound(k)
  }

  lemma StopsConverged(g: Graph, k: nat)
    requires |g| > 0 && 1 <= k <= ITERATIONS
    ensures k == ITERATIONS || L1(Iterate(g, k), Iterate(g, k - 1)) < CONVERGENCE ==> Converged(g, k)
  {
    if k == ITERATIONS || L1(Iterate(g, k), Iterate(g, k - 1)) < CONVERGENCE {
      forall m: nat | m >= k ensures L1(Iterate(g, m), Iterate(g, k)) <= StopBound(k) {
        if k == ITERATIONS {
          IteratesStayNear(g, k, m - k);
        } else {
          StopsNear(g, k, m - k);
        }
      }
    }
  }

  /** Stopping because the last change was small is safe: the fixed point is then within
      17/3 of that change. */
  lemma StopNearFixed(g: Graph, r: Rank, x: Rank)
    requires Fixed(g, x) && |r| == |g|
    ensures L1(Next(g, r), x) <= 17.0 / 3.0 * L1(Next(g, r), r)
  {
    NextContracts(g, r, x);
    Triangle(r, Next(g, r), x);
    Triangle(Next(g, r), r, x);
  }
}
