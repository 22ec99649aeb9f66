/**
  Lists of objects in which none occurs twice.
 */
module Lists {

  /** No two elements are the same. */
  ghost predicate Separate<T>(xs: seq<T>) {
    xs == [] || (xs[|xs| - 1] !in xs[..|xs| - 1] && Separate(xs[..|xs| - 1]))
  }

  lemma OneMoreApart<T>(xs: seq<T>, x: T)
    requires Separate(xs) && x !in xs
    ensures Separate(xs + [x])
  {
    assert (xs + [x])[..|xs|] == xs;
  }

  lemma {:induction false} OthersDiffer<T>(xs: seq<T>, i: nat)
    requires Separate(xs) && i < |xs|
    ensures forall n :: 0 <= n < |xs| && n != i ==> xs[n] != xs[i]
  {
    if i < |xs| - 1 {
      OthersDiffer(xs[..|xs| - 1], i);
    }
  }
}
