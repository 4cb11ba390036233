/** Ranks as scores: shares of the best one out of 100, rounded to one decimal.
  */
module Scores {
  import opened Sums
  import opened PageRank

  /** To the nearest whole number, halves to the even one. */
  function Nearest(x: real): int {
    var below := x.Floor;
    var part := x - below as real;
    if part < 0.5 || (part == 0.5 && below % 2 == 0) then below else below + 1
  }

  /** To one decimal. */
  function Rounded(x: real): real {
    Nearest(10.0 * x) as real / 10.0
  }

  lemma NearestIsNear(x: real)
    ensures -0.5 <= Nearest(x) as real - x <= 0.5
  {
  }

  lemma NearestKeepsOrder(x: real, y: real)
    requires x <= y
    ensures Nearest(x) <= Nearest(y)
  {
    if x.Floor == y.Floor {
    } else {
      assert x.Floor < y.Floor;
    }
  }

  lemma RoundedFits(x: real, y: real)
    ensures Abs(Rounded(x) - x) <= 0.05 && Rounded(0.0) == 0.0 && Rounded(100.0) == 100.0
    ensures x <= y ==> Rounded(x) <= Rounded(y)
  {
    NearestIsNear(10.0 * x);
    assert (0.0).Floor == 0 && (1000.0).Floor == 1000;
    if x <= y {
      NearestKeepsOrder(10.0 * x, 10.0 * y);
    }
  }

  /** A rank as a rounded share of the best one. */
  function Score(x: real, top: real): real
    requires top > 0.0
  {
    Rounded(x / top * 100.0)
  }

  lemma ScoreFits(x: real, top: real)
    requires 0.0 < x <= top
    ensures 0.0 <= Score(x, top) <= 100.0 && Abs(Score(x, top) - x / top * 100.0) <= 0.05
    ensures InTenths(Score(x, top))
  {
    assert 10.0 * Score(x, top) == Nearest(10.0 * (x / top * 100.0)) as real;
    Ratio(x, top);
    RoundedFits(0.0, x / top * 100.0);
    RoundedFits(x / top * 100.0, 100.0);
  }

  lemma ScoreKeepsOrder(x: real, y: real, top: real)
    requires x <= y && top > 0.0
    ensures Score(x, top) <= Score(y, top)
  {
    assert x / top <= y / top;
    RoundedFits(x / top * 100.0, y / top * 100.0);
  }

  lemma BestScore(top: real)
    requires top > 0.0
    ensures Score(top, top) == 100.0
  {
    assert top / top == 1.0;
    RoundedFits(100.0, 100.0);
  }

  predicate IsTop(rank: Rank, top: real) {
    top > 0.0 && top in rank && forall i :: 0 <= i < |rank| ==> rank[i] <= top
  }

  /** A whole number of tenths. */
  predicate InTenths(score: real) {
    (10.0 * score).Floor as real == 10.0 * score
  }

  predicate ScoreIs(score: real, x: real, top: real)
    requires top > 0.0
  {
    && 0.0 <= score <= 100.0 && InTenths(score)
    && Abs(score - x / top * 100.0) <= 0.05 && (x == top ==> score == 100.0)
  }

  ghost predicate ScoresOf(rank: Rank, scores: seq<real>) {
    && |scores| == |rank|
    && (forall i, j :: 0 <= i < |scores| && 0 <= j < |scores| && rank[i] <= rank[j] ==> scores[i] <= scores[j])
    && exists top :: IsTop(rank, top) && forall i :: 0 <= i < |scores| ==> ScoreIs(scores[i], rank[i], top)
  }

  lemma ScoresFit(n: nat, rank: Rank, top: real, scores: seq<real>)
    requires n > 0 && |rank| == |scores| == n && top in rank
    requires forall i :: 0 <= i < n ==> 0.0 < rank[i] <= top
    requires forall i :: 0 <= i < n ==> scores[i] == Score(rank[i], top)
    ensures ScoresOf(rank, scores)
  {
    BestScore(top);
    forall i | 0 <= i < n ensures ScoreIs(scores[i], rank[i], top) {
      ScoreFits(rank[i], top);
    }
    forall i, j | 0 <= i < n && 0 <= j < n && rank[i] <= rank[j] ensures scores[i] <= scores[j] {
      ScoreKeepsOrder(rank[i], rank[j], top);
    }
    assert IsTop(rank, top);
  }

  lemma Ratio(x: real, top: real)
    requires 0.0 < x <= top
    ensures 0.0 < x / top <= 1.0
  {
  }
}
