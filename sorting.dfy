/**
 * Python's `sorted(xs, key=key, reverse=True)`: a stable sort into
 * non-increasing key order. Elements with equal keys keep their input order.
 * Both the ranker and the store's ordered fetches use it.
 */
module Sorting {

  predicate SortedDesc<T>(xs: seq<T>, key: T -> real)
  {
    forall i, j :: 0 <= i < j < |xs| ==> key(xs[i]) >= key(xs[j])
  }

  /** The elements whose key is `s`, in their order: what stability preserves. */
  function WithKey<T>(xs: seq<T>, key: T -> real, s: real): seq<T>
  {
    if xs == [] then [] else (if key(xs[0]) == s then [xs[0]] else []) + WithKey(xs[1..], key, s)
  }

  /** Puts `x` in front of the first element whose key is not above its own. */
  function InsertDesc<T>(x: T, ys: seq<T>, key: T -> real): (r: seq<T>)
    ensures |r| == |ys| + 1
    ensures multiset(r) == multiset(ys) + multiset{x}
  {
    if ys == [] || key(ys[0]) <= key(x) then [x] + ys
    else
      assert ys == [ys[0]] + ys[1..];
      [ys[0]] + InsertDesc(x, ys[1..], key)
  }

  function SortDesc<T>(xs: seq<T>, key: T -> real): (r: seq<T>)
    ensures |r| == |xs|
    ensures multiset(r) == multiset(xs)
  {
    if xs == [] then []
    else
      assert xs == [xs[0]] + xs[1..];
      InsertDesc(xs[0], SortDesc(xs[1..], key), key)
  }

  lemma {:induction false} InsertDescBounded<T>(x: T, ys: seq<T>, key: T -> real, b: real)
    requires key(x) <= b && forall i :: 0 <= i < |ys| ==> key(ys[i]) <= b
    ensures forall i :: 0 <= i < |ys| + 1 ==> key(InsertDesc(x, ys, key)[i]) <= b
  {
    if ys != [] && key(ys[0]) > key(x) {
      InsertDescBounded(x, ys[1..], key, b);
    }
  }

  lemma {:induction false} InsertDescSorted<T>(x: T, ys: seq<T>, key: T -> real)
    requires SortedDesc(ys, key)
    ensures SortedDesc(InsertDesc(x, ys, key), key)
  {
    if ys != [] && key(ys[0]) > key(x) {
      var rest := InsertDesc(x, ys[1..], key);
      InsertDescSorted(x, ys[1..], key);
      InsertDescBounded(x, ys[1..], key, key(ys[0]));
      var r := [ys[0]] + rest;
      assert forall j :: 1 <= j < |r| ==> r[j] == rest[j - 1];
    }
  }

  /** `sorted(..., reverse=True)` leaves its result in non-increasing key order. */
  lemma {:induction false} SortDescSorted<T>(xs: seq<T>, key: T -> real)
    ensures SortedDesc(SortDesc(xs, key), key)
  {
    if xs != [] {
      SortDescSorted(xs[1..], key);
      InsertDescSorted(xs[0], SortDesc(xs[1..], key), key);
    }
  }

  lemma {:induction false} InsertDescWithKey<T>(x: T, ys: seq<T>, key: T -> real, s: real)
    ensures WithKey(InsertDesc(x, ys, key), key, s) == (if key(x) == s then [x] else []) + WithKey(ys, key, s)
  {
    if ys != [] && key(ys[0]) > key(x) {
      InsertDescWithKey(x, ys[1..], key, s);
      var r := [ys[0]] + InsertDesc(x, ys[1..], key);
      assert r[1..] == InsertDesc(x, ys[1..], key);
    } else {
      assert ([x] + ys)[1..] == ys;
    }
  }

  /** The sort is stable: for every key value, the elements carrying it come out in input order. */
  lemma {:induction false} SortDescStable<T>(xs: seq<T>, key: T -> real, s: real)
    ensures WithKey(SortDesc(xs, key), key, s) == WithKey(xs, key, s)
  {
    if xs != [] {
      SortDescStable(xs[1..], key, s);
      InsertDescWithKey(xs[0], SortDesc(xs[1..], key), key, s);
    }
  }

  /** A slice of a sorted sequence is sorted. */
  lemma SortedSlice<T>(xs: seq<T>, key: T -> real, lo: nat, hi: nat)
    requires SortedDesc(xs, key) && lo <= hi <= |xs|
    ensures SortedDesc(xs[lo..hi], key)
  {
    assert forall i :: 0 <= i < hi - lo ==> xs[lo..hi][i] == xs[lo + i];
  }
}
