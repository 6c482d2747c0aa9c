/** Latency percentiles by linear interpolation over the sorted samples. */
module Percentiles {
  import opened Numeric

  predicate Sorted(s: seq<real>) {
    forall i, j :: 0 <= i < j < |s| ==> s[i] <= s[j]
  }

  /** The interpolated quantile of a non-empty sorted sequence; the rank is truncated. */
  function Quantile(ordered: seq<real>, q: real): (x: real)
    requires ordered != [] && 0.0 <= q <= 1.0
  {
    var top := |ordered| - 1;
    if top == 0 then ordered[0]
    else
      var rank := Rank(ordered, q);
      var low := rank.Floor;
      if low >= top then ordered[top]
      else Between(ordered[low], ordered[low + 1], rank - low as real)
  }

  function Rank(ordered: seq<real>, q: real): (r: real)
    requires ordered != [] && 0.0 <= q <= 1.0
    ensures r >= 0.0
  {
    q * (|ordered| - 1) as real
  }

  function Between(x: real, y: real, part: real): (z: real) {
    x + part * (y - x)
  }

  lemma BetweenBounds(x: real, y: real, part: real)
    requires x <= y && 0.0 <= part <= 1.0
    ensures x <= Between(x, y, part) <= y
  {
    BetweenMonotone(x, y, 0.0, part);
    BetweenMonotone(x, y, part, 1.0);
  }

  lemma BetweenMonotone(x: real, y: real, a: real, b: real)
    requires x <= y && a <= b
    ensures Between(x, y, a) <= Between(x, y, b)
  {
    ProductNonNegative(y - x, b - a);
    Distribute(y - x, b, a);
  }

  /** The quantile lies between the two samples around its rank. */
  lemma QuantileLocated(ordered: seq<real>, q: real)
    requires ordered != [] && Sorted(ordered) && 0.0 <= q <= 1.0
    ensures
      var low := Rank(ordered, q).Floor;
      && 0 <= low <= |ordered| - 1
      && ordered[low] <= Quantile(ordered, q)
      && (low + 1 < |ordered| ==> Quantile(ordered, q) <= ordered[low + 1])
      && (low + 1 == |ordered| ==> Quantile(ordered, q) == ordered[low])
  {
    var rank := Rank(ordered, q);
    var low := rank.Floor;
    RankBounds(ordered, q);
    if low + 1 < |ordered| {
      BetweenBounds(ordered[low], ordered[low + 1], rank - low as real);
    }
  }

  lemma RankBounds(ordered: seq<real>, q: real)
    requires ordered != [] && 0.0 <= q <= 1.0
    ensures Rank(ordered, q) <= (|ordered| - 1) as real
  {
    var top := (|ordered| - 1) as real;
    ProductNonNegative(top, 1.0 - q);
    Distribute(top, 1.0, q);
  }

  lemma RankMonotone(ordered: seq<real>, p: real, q: real)
    requires ordered != [] && 0.0 <= p <= q <= 1.0
    ensures Rank(ordered, p) <= Rank(ordered, q)
  {
    var top := (|ordered| - 1) as real;
    ProductNonNegative(top, q - p);
    Distribute(top, q, p);
  }

  /** A higher quantile is never smaller, so p50 <= p95 <= p99 on every sample set. */
  lemma QuantileMonotone(ordered: seq<real>, p: real, q: real)
    requires ordered != [] && Sorted(ordered) && 0.0 <= p <= q <= 1.0
    ensures Quantile(ordered, p) <= Quantile(ordered, q)
  {
    RankMonotone(ordered, p, q);
    QuantileLocated(ordered, p);
    QuantileLocated(ordered, q);
    var a, b := Rank(ordered, p).Floor, Rank(ordered, q).Floor;
    if a == b && a + 1 < |ordered| {
      BetweenMonotone(ordered[a], ordered[a + 1], Rank(ordered, p) - a as real, Rank(ordered, q) - a as real);
    }
  }

  /** At a fractional rank the quantile divides the two samples around it in the rank's proportion. */
  lemma QuantileIsLinear(ordered: seq<real>, q: real, k: nat, part: real)
    requires k + 1 < |ordered| && 0.0 <= q <= 1.0 && 0.0 <= part <= 1.0
    requires q * (|ordered| - 1) as real == k as real + part
    ensures Quantile(ordered, q) == (1.0 - part) * ordered[k] + part * ordered[k + 1]
  {
    var x, y := ordered[k], ordered[k + 1];
    BetweenMeans(x, y, part);
    if part < 1.0 {
      assert Rank(ordered, q).Floor == k;
      assert Quantile(ordered, q) == Between(x, y, part);
    } else {
      assert Rank(ordered, q).Floor == k + 1;
      if k + 2 < |ordered| {
        BetweenMeans(y, ordered[k + 2], 0.0);
      }
      assert Quantile(ordered, q) == y;
    }
  }

  lemma BetweenMeans(x: real, y: real, part: real)
    ensures Between(x, y, part) == (1.0 - part) * x + part * y
  {
    Distribute(part, y, x);
    Distribute(x, 1.0, part);
  }

  lemma SingleSample(x: real, q: real)
    requires 0.0 <= q <= 1.0
    ensures Quantile([x], q) == x
  {
  }
}
