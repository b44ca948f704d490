/**
  Sums of real sequences, folded from the left as Python's built-in `sum`
  does, and the facts about running (prefix) sums the track normalisation
  relies on.
 */
module Sums {

  /** The sum of `s`, adding the elements left to right. */
  function Sum(s: seq<real>): real
  {
    if |s| == 0 then 0.0 else Sum(s[..|s| - 1]) + s[|s| - 1]
  }

  /** All elements are non-negative. */
  predicate AllNonNegative(s: seq<real>)
  {
    forall i :: 0 <= i < |s| ==> s[i] >= 0.0
  }

  /** Extending a prefix by one element adds that element to its sum. */
  lemma SumPrefixStep(s: seq<real>, i: nat)
    requires i < |s|
    ensures Sum(s[..i + 1]) == Sum(s[..i]) + s[i]
  {
    assert s[..i + 1][..i] == s[..i];
  }

  /** A sum of non-negative terms is non-negative. */
  lemma {:induction false} SumNonNegative(s: seq<real>)
    requires AllNonNegative(s)
    ensures Sum(s) >= 0.0
  {
    if |s| > 0 {
      SumNonNegative(s[..|s| - 1]);
    }
  }

  /** Running sums of non-negative terms never decrease. */
  lemma {:induction false} PrefixSumMonotone(s: seq<real>, i: nat, j: nat)
    requires AllNonNegative(s)
    requires i <= j <= |s|
    ensures 0.0 <= Sum(s[..i]) <= Sum(s[..j])
  {
    if i == j {
      SumNonNegative(s[..i]);
    } else {
      PrefixSumMonotone(s, i, j - 1);
      SumPrefixStep(s, j - 1);
    }
  }

  /** Summing termwise-smaller terms gives a smaller sum. */
  lemma {:induction false} SumPointwiseLe(a: seq<real>, b: seq<real>)
    requires |a| == |b|
    requires forall i :: 0 <= i < |a| ==> a[i] <= b[i]
    ensures Sum(a) <= Sum(b)
  {
    if |a| > 0 {
      SumPointwiseLe(a[..|a| - 1], b[..|b| - 1]);
    }
  }

  /** The running sums through positions `i <= j` of non-negative terms are
      ordered and bounded by the whole sum. */
  lemma PrefixSumsBounded(s: seq<real>, i: nat, j: nat)
    requires AllNonNegative(s)
    requires i <= j < |s|
    ensures 0.0 <= Sum(s[..i + 1]) <= Sum(s[..j + 1]) <= Sum(s)
  {
    PrefixSumMonotone(s, i + 1, j + 1);
    PrefixSumMonotone(s, j + 1, |s|);
    assert s[..|s|] == s;
  }
}
