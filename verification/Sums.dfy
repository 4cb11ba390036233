/** Finite sums of reals, and the few facts about them that ranking needs. */
module Sums {

  type Vec = int -> real
  type Matrix = (int, int) -> real

  function Sum(n: nat, f: Vec): real {
    if n == 0 then 0.0 else Sum(n - 1, f) + f(n - 1)
  }

  function Abs(x: real): real {
    if x < 0.0 then -x else x
  }

  function Plus(f: Vec, g: Vec): Vec {
    i => f(i) + g(i)
  }

  function Scaled(c: real, f: Vec): Vec {
    i => c * f(i)
  }

  function Const(c: real): Vec {
    _ => c
  }

  function AbsOf(f: Vec): Vec {
    i => Abs(f(i))
  }

  function Row(f: Matrix, i: int): Vec {
    j => f(i, j)
  }

  function Col(f: Matrix, j: int): Vec {
    i => f(i, j)
  }

  function RowSums(f: Matrix, m: nat): Vec {
    i => Sum(m, Row(f, i))
  }

  function ColSums(f: Matrix, n: nat): Vec {
    j => Sum(n, Col(f, j))
  }

  lemma {:induction false} SumEq(n: nat, f: Vec, g: Vec)
    requires forall i :: 0 <= i < n ==> f(i) == g(i)
    ensures Sum(n, f) == Sum(n, g)
  {
    if n > 0 {
      SumEq(n - 1, f, g);
    }
  }

  lemma {:induction false} SumLe(n: nat, f: Vec, g: Vec)
    requires forall i :: 0 <= i < n ==> f(i) <= g(i)
    ensures Sum(n, f) <= Sum(n, g)
  {
    if n > 0 {
      SumLe(n - 1, f, g);
    }
  }

  lemma {:induction false} SumPlus(n: nat, f: Vec, g: Vec)
    ensures Sum(n, Plus(f, g)) == Sum(n, f) + Sum(n, g)
  {
    if n > 0 {
      SumPlus(n - 1, f, g);
    }
  }

  lemma {:induction false} SumScaled(n: nat, c: real, f: Vec)
    ensures Sum(n, Scaled(c, f)) == c * Sum(n, f)
  {
    if n > 0 {
      SumScaled(n - 1, c, f);
    }
  }

  lemma {:induction false} SumConst(n: nat, c: real)
    ensures Sum(n, Const(c)) == n as real * c
  {
    if n > 0 {
      SumConst(n - 1, c);
    }
  }

  lemma {:induction false} SumSwap(n: nat, m: nat, f: Matrix)
    ensures Sum(n, RowSums(f, m)) == Sum(m, ColSums(f, n))
  {
    if n == 0 {
      SumConst(m, 0.0);
      SumEq(m, ColSums(f, n), Const(0.0));
    } else {
      SumSwap(n - 1, m, f);
      SumPlus(m, ColSums(f, n - 1), Row(f, n - 1));
      SumEq(m, ColSums(f, n), Plus(ColSums(f, n - 1), Row(f, n - 1)));
    }
  }

  lemma {:induction false} SumAbs(n: nat, f: Vec)
    ensures Abs(Sum(n, f)) <= Sum(n, AbsOf(f))
  {
    if n > 0 {
      SumAbs(n - 1, f);
    }
  }

  lemma {:induction false} SumPositive(n: nat, f: Vec)
    requires forall i :: 0 <= i < n ==> f(i) >= 0.0
    ensures Sum(n, f) >= 0.0
    ensures forall i :: 0 <= i < n ==> f(i) <= Sum(n, f)
  {
    if n > 0 {
      SumPositive(n - 1, f);
    }
  }
}
