/**
 * The arithmetic behind every statistics answer of the backend: the sum,
 * `Math.min(...xs)`, `Math.max(...xs)` and `Math.round(sum / n)` of a
 * non-empty list of integer milliseconds.
 */
module Stats {

  function Sum(xs: seq<int>): int
  {
    if xs == [] then 0 else Sum(xs[..|xs| - 1]) + xs[|xs| - 1]
  }

  /** `Math.min(...xs)` of a non-empty list. */
  function MinOf(xs: seq<int>): (m: int)
    requires xs != []
    ensures m in xs
    ensures forall i :: 0 <= i < |xs| ==> m <= xs[i]
  {
    if |xs| == 1 then xs[0]
    else
      var m := MinOf(xs[..|xs| - 1]);
      assert forall i :: 0 <= i < |xs| - 1 ==> xs[..|xs| - 1][i] == xs[i];
      if xs[|xs| - 1] < m then xs[|xs| - 1] else m
  }

  /** `Math.max(...xs)` of a non-empty list. */
  function MaxOf(xs: seq<int>): (m: int)
    requires xs != []
    ensures m in xs
    ensures forall i :: 0 <= i < |xs| ==> xs[i] <= m
  {
    if |xs| == 1 then xs[0]
    else
      var m := MaxOf(xs[..|xs| - 1]);
      assert forall i :: 0 <= i < |xs| - 1 ==> xs[..|xs| - 1][i] == xs[i];
      if xs[|xs| - 1] > m then xs[|xs| - 1] else m
  }

  /**
   * `Math.round(sum / n)`: the integer m with m <= sum / n + 1/2 < m + 1, so
   * halves round towards +∞ for means of either sign (see `RoundDivNearest`).
   */
  function RoundDiv(sum: int, n: int): int
    requires n > 0
  {
    (2 * sum + n) / (2 * n)
  }

  /** The rounded mean is floor(sum / n + 1/2), which is what `Math.round` gives. */
  lemma RoundDivNearest(sum: int, n: int)
    requires n > 0
    ensures var m := RoundDiv(sum, n); 2 * n * m <= 2 * sum + n < 2 * n * (m + 1)
  {
    var q, r := (2 * sum + n) / (2 * n), (2 * sum + n) % (2 * n);
    assert 2 * sum + n == 2 * n * q + r && 0 <= r < 2 * n;
    assert 2 * n * (q + 1) == 2 * n * q + 2 * n;
  }

  /** The sum lies between n times the minimum and n times the maximum. */
  lemma {:induction false} SumBounds(xs: seq<int>, lo: int, hi: int)
    requires forall i :: 0 <= i < |xs| ==> lo <= xs[i] <= hi
    ensures |xs| * lo <= Sum(xs) <= |xs| * hi
  {
    if xs != [] {
      var init := xs[..|xs| - 1];
      assert forall i :: 0 <= i < |init| ==> init[i] == xs[i];
      SumBounds(init, lo, hi);
      assert |xs| * lo == |init| * lo + lo;
      assert |xs| * hi == |init| * hi + hi;
    }
  }

  /** Rounding a mean keeps it between the bounds of what was averaged. */
  lemma RoundDivBetween(sum: int, n: int, lo: int, hi: int)
    requires n > 0 && n * lo <= sum <= n * hi
    ensures lo <= RoundDiv(sum, n) <= hi
  {
    var q, r := (2 * sum + n) / (2 * n), (2 * sum + n) % (2 * n);
    assert 2 * sum + n == 2 * n * q + r && 0 <= r < 2 * n;
    if q < lo {
      MulLe(2 * n, q, lo - 1);
    }
    if q > hi {
      MulLe(2 * n, hi + 1, q);
    }
  }

  lemma MulLe(d: int, a: int, b: int)
    requires d > 0 && a <= b
    ensures d * a <= d * b
  {
    assert d * b - d * a == d * (b - a);
  }

  /** The rounded mean of a non-empty list lies between its minimum and its maximum. */
  lemma MeanBetween(xs: seq<int>)
    requires xs != []
    ensures MinOf(xs) <= RoundDiv(Sum(xs), |xs|) <= MaxOf(xs)
  {
    SumBounds(xs, MinOf(xs), MaxOf(xs));
    RoundDivBetween(Sum(xs), |xs|, MinOf(xs), MaxOf(xs));
  }

  /** The mean of equal values is that value. */
  lemma MeanOfConstant(n: int, v: int)
    requires n > 0
    ensures RoundDiv(n * v, n) == v
  {
    RoundDivBetween(n * v, n, v, v);
  }

  lemma {:induction false} SumAppend(a: seq<int>, b: seq<int>)
    ensures Sum(a + b) == Sum(a) + Sum(b)
    decreases |b|
  {
    if b == [] {
      assert a + b == a;
    } else {
      assert (a + b)[..|a + b| - 1] == a + b[..|b| - 1];
      SumAppend(a, b[..|b| - 1]);
    }
  }
}
