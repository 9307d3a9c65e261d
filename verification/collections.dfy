/** Small sequence/set helpers: distinctness, the element set of a sequence,
    and an enumeration of a finite set in an unspecified order (how the
    models iterate a Python set or a Rust HashMap). */
module Collections {

  predicate Distinct<T(==)>(xs: seq<T>) {
    forall i, j :: 0 <= i < j < |xs| ==> xs[i] != xs[j]
  }

  function Elems<T(==)>(xs: seq<T>): set<T> {
    set x | x in xs
  }

  /** Appending an element not yet present keeps a sequence distinct and adds it to the
      element set. */
  lemma AppendFresh<T>(xs: seq<T>, x: T)
    requires Distinct(xs) && x !in Elems(xs)
    ensures Distinct(xs + [x]) && Elems(xs + [x]) == Elems(xs) + {x}
  {
    assert forall i :: 0 <= i < |xs| ==> (xs + [x])[i] == xs[i];
  }

  /** A sequence without repeats has as many elements as entries. */
  lemma {:induction false} DistinctCardinality<T>(xs: seq<T>)
    requires Distinct(xs)
    ensures |Elems(xs)| == |xs|
  {
    if xs != [] {
      var init := xs[..|xs| - 1];
      DistinctCardinality(init);
      assert Elems(xs) == Elems(init) + {xs[|xs| - 1]};
      assert xs[|xs| - 1] !in Elems(init);
    }
  }

  /** Some enumeration of `s`: each element exactly once, in no particular order. */
  method Enumerate<T(==)>(s: set<T>) returns (xs: seq<T>)
    ensures Distinct(xs) && Elems(xs) == s
  {
    xs := [];
    var rest := s;
    while rest != {}
      invariant Distinct(xs)
      invariant Elems(xs) + rest == s
      invariant Elems(xs) !! rest
      decreases |rest|
    {
      var x :| x in rest;
      AppendFresh(xs, x);
      xs := xs + [x];
      rest := rest - {x};
    }
  }
}
