/**
 * Amounts (CAmount) and the money range.  The constants and MoneyRange live in
 * amount.h, which is not part of this model; their values follow that header.
 */
module Money {

  /** Number of base units in one coin. */
  const COIN: int := 100_000_000

  /** Largest amount any output, input or total may carry. */
  const MAX_MONEY: int := 21_000_000 * COIN

  /** An amount is valid when it is neither negative nor above MAX_MONEY. */
  predicate MoneyRange(v: int)
  {
    0 <= v <= MAX_MONEY
  }

  /** Sum of a sequence of amounts, taken from the back so a prefix sum grows by one term. */
  function Sum(xs: seq<int>): int
  {
    if |xs| == 0 then 0 else Sum(xs[..|xs| - 1]) + xs[|xs| - 1]
  }

  /** Every amount of the sequence is in range. */
  predicate AllInRange(xs: seq<int>)
  {
    forall i :: 0 <= i < |xs| ==> MoneyRange(xs[i])
  }

  /** The running total never leaves the money range: every non-empty prefix sum is in range. */
  predicate RunningTotalInRange(xs: seq<int>)
  {
    forall k :: 0 < k <= |xs| ==> MoneyRange(Sum(xs[..k]))
  }

  /** Extending a prefix by one element adds that element to its sum. */
  lemma SumPrefixStep(xs: seq<int>, k: nat)
    requires k < |xs|
    ensures Sum(xs[..k + 1]) == Sum(xs[..k]) + xs[k]
  {
    assert xs[..k + 1][..k] == xs[..k];
  }

  /** The sum of a concatenation is the sum of its parts. */
  lemma {:induction false} SumConcat(a: seq<int>, b: seq<int>)
    ensures Sum(a + b) == Sum(a) + Sum(b)
    decreases |b|
  {
    if |b| == 0 {
      assert a + b == a;
    } else {
      var b' := b[..|b| - 1];
      assert (a + b)[..|a + b| - 1] == a + b';
      SumConcat(a, b');
    }
  }

  /** A sum of non-negative amounts is at least each of its prefix sums. */
  lemma {:induction false} SumOfNonNegativeIsMonotone(xs: seq<int>, k: nat)
    requires forall i :: 0 <= i < |xs| ==> xs[i] >= 0
    requires k <= |xs|
    ensures Sum(xs[..k]) <= Sum(xs)
    decreases |xs| - k
  {
    if k < |xs| {
      SumPrefixStep(xs, k);
      SumOfNonNegativeIsMonotone(xs, k + 1);
    } else {
      assert xs[..k] == xs;
    }
  }

  /**
   * When every amount is non-negative, the running total stays in range exactly
   * when the whole sum is in range: the last prefix is the largest.
   */
  lemma RunningTotalOfNonNegatives(xs: seq<int>)
    requires forall i :: 0 <= i < |xs| ==> xs[i] >= 0
    ensures RunningTotalInRange(xs) <==> (|xs| == 0 || MoneyRange(Sum(xs)))
  {
    if |xs| > 0 && MoneyRange(Sum(xs)) {
      forall k | 0 < k <= |xs|
        ensures MoneyRange(Sum(xs[..k]))
      {
        SumOfNonNegativeIsMonotone(xs, k);
        SumNonNegative(xs[..k]);
      }
    }
    if |xs| > 0 && RunningTotalInRange(xs) {
      assert xs[..|xs|] == xs;
    }
  }

  /** A sum of non-negative amounts is non-negative. */
  lemma {:induction false} SumNonNegative(xs: seq<int>)
    requires forall i :: 0 <= i < |xs| ==> xs[i] >= 0
    ensures Sum(xs) >= 0
  {
    if |xs| > 0 {
      SumNonNegative(xs[..|xs| - 1]);
    }
  }

  /** A running total that stays in range ends in range: an empty sum is zero. */
  lemma FinalTotalInRange(xs: seq<int>)
    requires RunningTotalInRange(xs)
    ensures MoneyRange(Sum(xs))
  {
    if |xs| > 0 {
      assert xs[..|xs|] == xs;
    }
  }

  /** A prefix of vals + olds sums to a prefix of vals, or to all of vals plus a prefix of olds. */
  lemma ConcatPrefixSum(vals: seq<int>, olds: seq<int>, k: nat)
    requires k <= |vals| + |olds|
    ensures k <= |vals| ==> Sum((vals + olds)[..k]) == Sum(vals[..k])
    ensures k > |vals| ==> Sum((vals + olds)[..k]) == Sum(vals) + Sum(olds[..k - |vals|])
  {
    if k <= |vals| {
      assert (vals + olds)[..k] == vals[..k];
    } else {
      assert (vals + olds)[..k] == vals + olds[..k - |vals|];
      SumConcat(vals, olds[..k - |vals|]);
    }
  }
}
