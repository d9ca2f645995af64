/** A notion about sequences that several parts share. */
module Sequences {
  /** No element occurs twice. */
  predicate NoRepeats<T(==)>(xs: seq<T>) {
    forall i, j | 0 <= i < j < |xs| :: xs[i] != xs[j]
  }

  /** Distinct elements of a finite set are no more than the set has. */
  lemma {:induction false} DistinctFit<T>(xs: seq<T>, universe: set<T>)
    requires NoRepeats(xs)
    requires forall x | x in xs :: x in universe
    ensures |xs| <= |universe|
  {
    if xs != [] {
      var last := xs[|xs| - 1];
      assert forall i | 0 <= i < |xs| - 1 :: xs[..|xs| - 1][i] == xs[i];
      DistinctFit(xs[..|xs| - 1], universe - {last});
    }
  }
}
