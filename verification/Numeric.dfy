/** Exact arithmetic shared by the money and statistics modules: sums and banker's rounding. */
module Numeric {

  /** Python's ROUND_HALF_EVEN to an integer: the nearest integer, ties to the even one. */
  function HalfEven(x: real): (k: int)
    ensures -0.5 <= x - k as real <= 0.5
    ensures x - k as real == 0.5 || x - k as real == -0.5 ==> k % 2 == 0
  {
    var below := x.Floor;
    var rest := x - below as real;
    if rest < 0.5 then below
    else if rest > 0.5 then below + 1
    else if below % 2 == 0 then below else below + 1
  }

  /** Round to a multiple of 1/scale, half even: Decimal.quantize with that exponent. */
  function Quantize(x: real, scale: real): (q: real)
    requires scale > 0.0
  {
    HalfEven(x * scale) as real / scale
  }

  predicate IsWhole(x: real) {
    x == x.Floor as real
  }

  function Max(x: real, y: real): (m: real) {
    if x < y then y else x
  }

  function Abs(x: real): (a: real) {
    if x < 0.0 then -x else x
  }

  function Min(x: real, y: real): (m: real) {
    if x < y then x else y
  }

  // ----- products, kept in named steps for the solver -----

  function Product(x: real, y: real): (z: real)
    ensures x > 0.0 && y > 0.0 ==> z > 0.0
  {
    x * y
  }

  function Square(x: real): (y: real)
    ensures y >= 0.0
    ensures x > 0.0 ==> y > 0.0
  {
    Product(x, x)
  }

  lemma ProductPositive(x: real, y: real)
    requires x > 0.0 && y > 0.0
    ensures x * y > 0.0
  {
  }

  lemma Distribute(c: real, x: real, y: real)
    ensures c * (x + y) == c * x + c * y
    ensures c * (x - y) == c * x - c * y
  {
  }

  lemma SquareOfProduct(x: real, y: real)
    ensures Square(x * y) == Square(x) * Square(y)
  {
  }

  lemma ProductNonNegative(x: real, y: real)
    requires x >= 0.0 && y >= 0.0
    ensures x * y >= 0.0
  {
  }

  // ----- rounding -----

  /** Nearest-with-ties-to-even pins the integer: no other rounding rule satisfies it. */
  lemma HalfEvenUnique(x: real, k: int)
    requires -0.5 <= x - k as real <= 0.5
    requires x - k as real == 0.5 || x - k as real == -0.5 ==> k % 2 == 0
    ensures k == HalfEven(x)
  {
    var h := HalfEven(x);
    assert -1.0 <= (k - h) as real <= 1.0;
    assert -1 <= k - h <= 1;
  }

  lemma HalfEvenMonotone(x: real, y: real)
    requires x <= y
    ensures HalfEven(x) <= HalfEven(y)
  {
  }

  /** A rounded number is negative exactly when the exact one lies below minus one half. */
  lemma HalfEvenNegative(x: real)
    ensures HalfEven(x) < 0 <==> x < -0.5
  {
    var k := HalfEven(x);
    assert k == -1 ==> k % 2 != 0;
  }

  lemma HalfEvenWhole(k: int)
    ensures HalfEven(k as real) == k
  {
    HalfEvenUnique(k as real, k);
  }

  lemma QuantizeMonotone(x: real, y: real, scale: real)
    requires scale > 0.0 && x <= y
    ensures Quantize(x, scale) <= Quantize(y, scale)
  {
    assert x * scale <= y * scale;
    HalfEvenMonotone(x * scale, y * scale);
    DivideMonotone(HalfEven(x * scale) as real, HalfEven(y * scale) as real, scale);
  }

  lemma DivideMonotone(a: real, b: real, s: real)
    requires a <= b && s > 0.0
    ensures a / s <= b / s
  {
  }

  // ----- rounded quotients -----

  /** k is the nearest integer to y / d, ties to even, without dividing. */
  ghost predicate RoundsTo(y: real, k: int, d: real) {
    && Abs(y - k as real * d) <= 0.5 * d
    && (Abs(y - k as real * d) == 0.5 * d ==> k % 2 == 0)
  }

  /** v is x divided by d, rounded to whole cents, ties to the even cent. */
  ghost predicate IsQuotientInCents(v: real, x: real, d: real) {
    exists cents: int :: IsQuotientAt(v, x, d, cents)
  }

  ghost predicate IsQuotientAt(v: real, x: real, d: real, cents: int) {
    v * 100.0 == cents as real && RoundsTo(x * 100.0, cents, d)
  }

  lemma QuotientTimes(x: real, d: real)
    requires d != 0.0
    ensures x / d * d == x
  {
  }

  lemma QuantizedInCents(p: real, x: real, d: real)
    requires d > 0.0 && p * d == x
    ensures IsQuotientInCents(Quantize(p, 100.0), x, d)
  {
    var cents := HalfEven(p * 100.0);
    ScaledRounding(p * 100.0, cents, d);
    assert (p * 100.0) * d == x * 100.0;
    CentsBack(cents);
    assert IsQuotientAt(Quantize(p, 100.0), x, d, cents);
  }

  lemma CentsBack(cents: int)
    ensures cents as real / 100.0 * 100.0 == cents as real
  {
  }

  /** A rounding error, scaled by a positive number. */
  lemma ScaledRounding(y: real, k: int, d: real)
    requires d > 0.0 && -0.5 <= y - k as real <= 0.5
    requires y - k as real == 0.5 || y - k as real == -0.5 ==> k % 2 == 0
    ensures RoundsTo(y * d, k, d)
  {
    var e := y - k as real;
    Distribute(d, y, k as real);
    ProductNonNegative(d, 0.5 - e);
    ProductNonNegative(d, e + 0.5);
    Distribute(d, 0.5, e);
    Distribute(d, e, 0.5);
    if e != 0.5 {
      ProductPositive(d, 0.5 - e);
    }
    if e != -0.5 {
      ProductPositive(d, e + 0.5);
    }
  }

  function Sum(s: seq<real>): (t: real) {
    if s == [] then 0.0 else Sum(s[..|s| - 1]) + s[|s| - 1]
  }

  function SumInt(s: seq<int>): (t: int) {
    if s == [] then 0 else SumInt(s[..|s| - 1]) + s[|s| - 1]
  }

  lemma SumPush(s: seq<real>, x: real)
    ensures Sum(s + [x]) == Sum(s) + x
  {
    assert (s + [x])[..|s|] == s;
  }

  lemma {:induction false} SumConcat(s: seq<real>, t: seq<real>)
    ensures Sum(s + t) == Sum(s) + Sum(t)
  {
    if t == [] {
      assert s + t == s;
    } else {
      var t', x := t[..|t| - 1], t[|t| - 1];
      assert s + t == (s + t') + [x];
      SumPush(s + t', x);
      SumConcat(s, t');
    }
  }

  lemma {:induction false} SumMonotone(s: seq<real>, t: seq<real>)
    requires |s| == |t|
    requires forall i :: 0 <= i < |s| ==> s[i] <= t[i]
    ensures Sum(s) <= Sum(t)
  {
    if s != [] {
      SumMonotone(s[..|s| - 1], t[..|t| - 1]);
    }
  }

  lemma {:induction false} SumNonNegative(s: seq<real>)
    requires forall i :: 0 <= i < |s| ==> s[i] >= 0.0
    ensures Sum(s) >= 0.0
  {
    if s != [] {
      SumNonNegative(s[..|s| - 1]);
    }
  }

  /** Under a pointwise bound, equal sums force equal terms. */
  lemma {:induction false} SumTight(s: seq<real>, t: seq<real>)
    requires |s| == |t|
    requires forall i :: 0 <= i < |s| ==> s[i] <= t[i]
    ensures Sum(s) == Sum(t) <==> s == t
  {
    if s != [] {
      var n := |s| - 1;
      SumTight(s[..n], t[..n]);
      SumMonotone(s[..n], t[..n]);
      assert s == s[..n] + [s[n]] && t == t[..n] + [t[n]];
    }
  }

  lemma {:induction false} SumScale(s: seq<real>, t: seq<real>, c: real)
    requires |s| == |t|
    requires forall i :: 0 <= i < |s| ==> t[i] == c * s[i]
    ensures Sum(t) == c * Sum(s)
  {
    if s != [] {
      var n := |s| - 1;
      SumScale(s[..n], t[..n], c);
      assert c * Sum(s) == c * Sum(s[..n]) + c * s[n];
    }
  }

  lemma {:induction false} SumDifference(s: seq<real>, t: seq<real>, d: seq<real>)
    requires |s| == |t| == |d|
    requires forall i :: 0 <= i < |s| ==> d[i] == s[i] - t[i]
    ensures Sum(d) == Sum(s) - Sum(t)
  {
    if s != [] {
      var n := |s| - 1;
      SumDifference(s[..n], t[..n], d[..n]);
    }
  }

  lemma {:induction false} SumBound(s: seq<real>, bound: real)
    requires forall i :: 0 <= i < |s| ==> -bound <= s[i] <= bound
    ensures -(|s| as real * bound) <= Sum(s) <= |s| as real * bound
  {
    if s != [] {
      var n := |s| - 1;
      SumBound(s[..n], bound);
      assert |s| as real * bound == n as real * bound + bound;
    }
  }

  function AsReals(s: seq<int>): (r: seq<real>)
    ensures |r| == |s| && forall i :: 0 <= i < |s| ==> r[i] == s[i] as real
  {
    seq(|s|, i requires 0 <= i < |s| => s[i] as real)
  }

  lemma {:induction false} SumAsReals(s: seq<int>)
    ensures Sum(AsReals(s)) == SumInt(s) as real
  {
    if s != [] {
      var n := |s| - 1;
      SumAsReals(s[..n]);
      assert AsReals(s)[..n] == AsReals(s[..n]);
    }
  }

  lemma {:induction false} SumIntUpdate(s: seq<int>, k: nat, x: int)
    requires k < |s|
    ensures SumInt(s[k := x]) == SumInt(s) + x - s[k]
  {
    var n := |s| - 1;
    if k == n {
      assert s[k := x][..n] == s[..n];
    } else {
      assert s[k := x][..n] == s[..n][k := x];
      SumIntUpdate(s[..n], k, x);
    }
  }
}
