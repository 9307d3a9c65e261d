/** Stable sorting by a real-valued key, as Rust's `sort_by_key` and `sort_by`
    (with a total order on the keys) do it: the result is ordered by key, is a
    permutation of the input, and keeps elements with equal keys in their input
    order. */
module Sorting {

  predicate SortedBy<T>(s: seq<T>, key: T -> real) {
    forall i, j :: 0 <= i < j < |s| ==> key(s[i]) <= key(s[j])
  }

  /** Insert `x` before the first element whose key is not below its own. */
  function InsertBy<T>(x: T, s: seq<T>, key: T -> real): seq<T> {
    if s == [] || key(x) <= key(s[0]) then [x] + s else [s[0]] + InsertBy(x, s[1..], key)
  }

  /** Insertion sort: the head is inserted into the sorted tail, ahead of its equals. */
  function SortBy<T>(xs: seq<T>, key: T -> real): seq<T> {
    if xs == [] then [] else InsertBy(xs[0], SortBy(xs[1..], key), key)
  }

  lemma {:induction false} InsertByPermutes<T>(x: T, s: seq<T>, key: T -> real)
    ensures multiset(InsertBy(x, s, key)) == multiset(s) + multiset{x}
  {
    if s != [] && key(x) > key(s[0]) {
      InsertByPermutes(x, s[1..], key);
      assert s == [s[0]] + s[1..];
    }
  }

  /** A bound below `x` and below every element of `s` stays below every element after
      insertion. */
  lemma {:induction false} InsertByLowerBound<T>(x: T, s: seq<T>, key: T -> real, b: real)
    requires b <= key(x)
    requires forall i :: 0 <= i < |s| ==> b <= key(s[i])
    ensures forall i :: 0 <= i < |InsertBy(x, s, key)| ==> b <= key(InsertBy(x, s, key)[i])
  {
    if s != [] && key(x) > key(s[0]) {
      InsertByLowerBound(x, s[1..], key, b);
    }
  }

  lemma {:induction false} InsertBySorted<T>(x: T, s: seq<T>, key: T -> real)
    requires SortedBy(s, key)
    ensures SortedBy(InsertBy(x, s, key), key)
  {
    if s != [] && key(x) > key(s[0]) {
      InsertBySorted(x, s[1..], key);
      InsertByLowerBound(x, s[1..], key, key(s[0]));
    } else {
      var r := InsertBy(x, s, key);
      forall i, j | 0 <= i < j < |r| ensures key(r[i]) <= key(r[j]) {
        if i > 0 {
          assert r[i] == s[i - 1] && r[j] == s[j - 1];
        }
      }
    }
  }

  /** Sorting orders by key and loses or adds nothing. */
  lemma {:induction false} SortBySorted<T>(xs: seq<T>, key: T -> real)
    ensures SortedBy(SortBy(xs, key), key)
    ensures multiset(SortBy(xs, key)) == multiset(xs)
    ensures |SortBy(xs, key)| == |xs|
  {
    if xs != [] {
      SortBySorted(xs[1..], key);
      InsertBySorted(xs[0], SortBy(xs[1..], key), key);
      InsertByPermutes(xs[0], SortBy(xs[1..], key), key);
      assert xs == [xs[0]] + xs[1..];
    }
  }

  /** The elements of `s` whose key is `k`, in order. */
  function WithKey<T>(s: seq<T>, key: T -> real, k: real): seq<T> {
    if s == [] then []
    else if key(s[0]) == k then [s[0]] + WithKey(s[1..], key, k)
    else WithKey(s[1..], key, k)
  }

  lemma {:induction false} WithKeyInsert<T>(x: T, s: seq<T>, key: T -> real, k: real)
    ensures WithKey(InsertBy(x, s, key), key, k) ==
      (if key(x) == k then [x] + WithKey(s, key, k) else WithKey(s, key, k))
  {
    if s != [] && key(x) > key(s[0]) {
      WithKeyInsert(x, s[1..], key, k);
      assert InsertBy(x, s, key)[1..] == InsertBy(x, s[1..], key);
    } else {
      assert InsertBy(x, s, key)[1..] == s;
    }
  }

  /** Stability: for every key, the elements carrying it appear in the sorted output in
      their input order. */
  lemma {:induction false} SortByStable<T>(xs: seq<T>, key: T -> real, k: real)
    ensures WithKey(SortBy(xs, key), key, k) == WithKey(xs, key, k)
  {
    if xs != [] {
      SortByStable(xs[1..], key, k);
      WithKeyInsert(xs[0], SortBy(xs[1..], key), key, k);
    }
  }

  // ---------------------------------------------------------------------
  // Plain reals, compared by value

  function Id(x: real): real { x }

  function SortReals(xs: seq<real>): seq<real> {
    SortBy(xs, Id)
  }

  /** The number of elements of `s` below `m`. */
  function CountBelow(s: seq<real>, m: real): nat {
    if s == [] then 0 else (if s[0] < m then 1 else 0) + CountBelow(s[1..], m)
  }

  /** The number of elements of `s` above `m`. */
  function CountAbove(s: seq<real>, m: real): nat {
    if s == [] then 0 else (if s[0] > m then 1 else 0) + CountAbove(s[1..], m)
  }

  lemma {:induction false} CountsInsert(x: real, s: seq<real>, m: real)
    ensures CountBelow(InsertBy(x, s, Id), m) == CountBelow(s, m) + (if x < m then 1 else 0)
    ensures CountAbove(InsertBy(x, s, Id), m) == CountAbove(s, m) + (if x > m then 1 else 0)
  {
    if s != [] && x > s[0] {
      CountsInsert(x, s[1..], m);
      assert InsertBy(x, s, Id)[1..] == InsertBy(x, s[1..], Id);
    } else {
      assert InsertBy(x, s, Id)[1..] == s;
    }
  }

  lemma {:induction false} CountsSort(xs: seq<real>, m: real)
    ensures CountBelow(SortReals(xs), m) == CountBelow(xs, m)
    ensures CountAbove(SortReals(xs), m) == CountAbove(xs, m)
  {
    if xs != [] {
      CountsSort(xs[1..], m);
      CountsInsert(xs[0], SortReals(xs[1..]), m);
    }
  }

  /** In a sorted sequence, only the elements before position `k` can lie below `s[k]`
      and only those after it above. */
  lemma {:induction false} CountsSortedAt(s: seq<real>, k: nat)
    requires SortedBy(s, Id) && k < |s|
    ensures CountBelow(s, s[k]) <= k
    ensures CountAbove(s, s[k]) <= |s| - k - 1
  {
    if k > 0 {
      assert SortedBy(s[1..], Id) by {
        forall i, j | 0 <= i < j < |s[1..]| ensures s[1..][i] <= s[1..][j] {
          assert Id(s[i + 1]) <= Id(s[j + 1]);
        }
      }
      CountsSortedAt(s[1..], k - 1);
    } else {
      CountAboveBound(s[1..], s[0]);
      CountBelowLeast(s, s[0]);
    }
  }

  lemma {:induction false} CountBelowLeast(s: seq<real>, m: real)
    requires forall i :: 0 <= i < |s| ==> m <= s[i]
    ensures CountBelow(s, m) == 0
  {
    if s != [] {
      CountBelowLeast(s[1..], m);
    }
  }

  lemma {:induction false} CountAboveBound(s: seq<real>, m: real)
    ensures CountAbove(s, m) <= |s|
  {
    if s != [] {
      CountAboveBound(s[1..], m);
    }
  }

  /** The element at position `k` of the sorted copy: at most `k` input elements lie below
      it and at most `n - k - 1` above it. */
  lemma OrderStatistic(xs: seq<real>, k: nat)
    requires k < |xs|
    ensures |SortReals(xs)| == |xs|
    ensures SortReals(xs)[k] in xs
    ensures CountBelow(xs, SortReals(xs)[k]) <= k
    ensures CountAbove(xs, SortReals(xs)[k]) <= |xs| - k - 1
  {
    SortBySorted(xs, Id);
    var s := SortReals(xs);
    assert s[k] in multiset(s);
    CountsSortedAt(s, k);
    CountsSort(xs, s[k]);
  }
}
