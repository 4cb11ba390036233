/** Saying which entries of a list were picked, by their positions.
  */
module Picks {

  predicate Ascending(idx: seq<nat>) {
    forall i, j :: 0 <= i < j < |idx| ==> idx[i] < idx[j]
  }

  /** The entries at the given positions. */
  function Chosen<T>(items: seq<T>, idx: seq<nat>): (r: seq<T>)
    requires forall j :: 0 <= j < |idx| ==> idx[j] < |items|
  {
    seq(|idx|, j requires 0 <= j < |idx| => items[idx[j]])
  }

  /** The positions of the entries that pass a test: all of them, and in order. */
  ghost predicate Passing<T(!new)>(items: seq<T>, test: T -> bool, idx: seq<nat>) {
    && Ascending(idx)
    && (forall j :: 0 <= j < |idx| ==> idx[j] < |items|)
    && (forall k :: 0 <= k < |items| ==> (k in idx <==> test(items[k])))
  }

  /** `out` holds the entries that pass, in order. */
  ghost predicate Kept<T(!new)>(items: seq<T>, test: T -> bool, out: seq<T>) {
    exists idx: seq<nat> :: Passing(items, test, idx) && out == Chosen(items, idx)
  }

  lemma KeptOne<T(!new)>(items: seq<T>, test: T -> bool, out: seq<T>, x: T)
    requires Kept(items, test, out)
    ensures Kept(items + [x], test, if test(x) then out + [x] else out)
  {
    var idx: seq<nat> :| Passing(items, test, idx) && out == Chosen(items, idx);
    var more := if test(x) then idx + [|items|] else idx;
    PassingOne(items, test, idx, x);
    assert Chosen(items + [x], more) == if test(x) then out + [x] else out;
  }

  lemma PassingOne<T(!new)>(items: seq<T>, test: T -> bool, idx: seq<nat>, x: T)
    requires Passing(items, test, idx)
    ensures Passing(items + [x], test, if test(x) then idx + [|items|] else idx)
  {
    var all := items + [x];
    var more := if test(x) then idx + [|items|] else idx;
    assert |items| !in idx;
    assert test(x) ==> more[|idx|] == |items|;
    forall k | 0 <= k < |all| ensures k in more <==> test(all[k]) {
      if k < |items| {
        assert all[k] == items[k] && (k in more <==> k in idx);
      }
    }
  }

  /** Position `k` is the first of its entry. */
  predicate FirstAt<T(==)>(items: seq<T>, k: nat)
    requires k < |items|
  {
    forall j :: 0 <= j < k ==> items[j] != items[k]
  }

  /** `idx` says where the first `cap` different entries first stand. */
  ghost predicate FirstPlaces<T(!new)>(items: seq<T>, cap: nat, idx: seq<nat>) {
    && |idx| <= cap && Ascending(idx)
    && (forall j :: 0 <= j < |idx| ==> idx[j] < |items| && FirstAt(items, idx[j]))
    && (forall k :: 0 <= k < |items| && FirstAt(items, k) && k !in idx ==> Full(idx, cap, k))
  }

  predicate Full(idx: seq<nat>, cap: nat, k: nat) {
    |idx| == cap && forall j :: 0 <= j < cap ==> idx[j] < k
  }

  /** `out` holds the first `cap` different entries, each once, in the order they first come. */
  ghost predicate FirstDifferent<T(!new)>(items: seq<T>, cap: nat, out: seq<T>) {
    exists idx: seq<nat> :: FirstPlaces(items, cap, idx) && out == Chosen(items, idx)
  }
}
