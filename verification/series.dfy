/** The derived fields of a time series: the 7-sample mean and the running total of
    the deaths column, with their reference definitions. */
module Series {

  /** Number of samples in a rolling-average window. */
  const Window: nat := 7

  /** Sum of a sequence, accumulated from the left. */
  function Sum(xs: seq<int>): int
    decreases |xs|
  {
    if |xs| == 0 then 0 else Sum(xs[..|xs| - 1]) + xs[|xs| - 1]
  }

  /** The arithmetic mean of the `Window` values just before index `end`,
      that is of `xs[end - 7 .. end)`. */
  function WindowMean(xs: seq<int>, end: int): real
    requires Window <= end <= |xs|
  {
    Sum(xs[end - Window..end]) as real / Window as real
  }

  /** A window mean only reads the values before its end: extending the series
      afterwards does not change it. */
  lemma WindowMeanPrefix(xs: seq<int>, ys: seq<int>, end: int)
    requires Window <= end <= |xs| <= |ys|
    requires xs == ys[..|xs|]
    ensures WindowMean(xs, end) == WindowMean(ys, end)
  {
    assert xs[end - Window..end] == ys[end - Window..end];
  }

  lemma PrefixOfPrefix(xs: seq<int>, n: int)
    requires 0 <= n <= |xs|
    ensures forall k :: 0 <= k <= n ==> xs[..n][..k] == xs[..k]
  {
  }

  /** `r[i] = base + xs[0] + ... + xs[i]`, built the way the source's loop builds
      it: each total is the previous one plus the current value, and the first is
      `base` plus the first value. */
  function RunningTotals(xs: seq<int>, base: int): (r: seq<int>)
    ensures |r| == |xs|
    ensures forall i :: 0 <= i < |xs| ==> r[i] == base + Sum(xs[..i + 1])
    decreases |xs|
  {
    if |xs| == 0 then []
    else
      var init := RunningTotals(xs[..|xs| - 1], base);
      PrefixOfPrefix(xs, |xs| - 1);
      assert xs[..|xs|] == xs;
      init + [(if |init| == 0 then base else init[|init| - 1]) + xs[|xs| - 1]]
  }

  /** The recurrence the derived records promise: the first total is the base plus
      the first value, every later one the previous total plus the current value. */
  lemma RunningTotalsStep(xs: seq<int>, base: int)
    requires |xs| > 0
    ensures RunningTotals(xs, base)[0] == base + xs[0]
    ensures forall i :: 0 < i < |xs| ==>
      RunningTotals(xs, base)[i] == RunningTotals(xs, base)[i - 1] + xs[i]
  {
    var r := RunningTotals(xs, base);
    assert xs[..1][..0] == [];
    forall i | 0 < i < |xs|
      ensures r[i] == r[i - 1] + xs[i]
    {
      assert xs[..i + 1][..i] == xs[..i];
    }
  }

  predicate NonNegative(xs: seq<int>) {
    forall i :: 0 <= i < |xs| ==> xs[i] >= 0
  }

  /** With no negative values the running total never decreases, and never drops
      below the base. */
  lemma {:induction false} RunningTotalsMonotone(xs: seq<int>, base: int, i: int, j: int)
    requires NonNegative(xs)
    requires 0 <= i <= j < |xs|
    ensures base <= RunningTotals(xs, base)[i] <= RunningTotals(xs, base)[j]
    decreases j
  {
    RunningTotalsStep(xs, base);
    var r := RunningTotals(xs, base);
    if j > i {
      RunningTotalsMonotone(xs, base, i, j - 1);
    } else if i > 0 {
      RunningTotalsMonotone(xs, base, i - 1, i - 1);
    }
  }
}
