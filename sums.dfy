/** Sums and prefix sums of real sequences, as used for resistances and positions. */
module Sums {

  /** Sum of a sequence, folded from the left like Python's `sum`. */
  function Sum(s: seq<real>): real
  {
    if |s| == 0 then 0.0 else Sum(s[..|s| - 1]) + s[|s| - 1]
  }

  predicate AllPositive(s: seq<real>)
  {
    forall i :: 0 <= i < |s| ==> s[i] > 0.0
  }

  /** Extending a prefix by one element adds that element to its sum. */
  lemma SumPrefixStep(s: seq<real>, i: nat)
    requires i < |s|
    ensures Sum(s[..i + 1]) == Sum(s[..i]) + s[i]
  {
    assert s[..i + 1][..i] == s[..i];
  }

  /** A sum of positive terms is non-negative, and positive when there is a term. */
  lemma {:induction false} SumOfPositive(s: seq<real>)
    requires AllPositive(s)
    ensures Sum(s) >= 0.0
    ensures |s| > 0 ==> Sum(s) > 0.0
  {
    if |s| > 0 {
      SumOfPositive(s[..|s| - 1]);
    }
  }

  /** Prefix sums of positive terms strictly increase with the prefix length. */
  lemma {:induction false} PrefixSumsIncrease(s: seq<real>, i: nat, j: nat)
    requires AllPositive(s)
    requires i < j <= |s|
    ensures Sum(s[..i]) < Sum(s[..j])
  {
    SumPrefixStep(s, j - 1);
    if i < j - 1 {
      PrefixSumsIncrease(s, i, j - 1);
    }
  }
}
