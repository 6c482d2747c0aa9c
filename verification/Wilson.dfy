/**
 * The 95% Wilson score interval of the eval funnel, over exact reals. The square root is a
 * parameter fixed by its defining equation.
 */
module Wilson {
  import opened Numeric

  const Z_95: real := 1.959963984540054

  ghost predicate IsSqrt(root: real -> real) {
    forall x :: x >= 0.0 ==> root(x) >= 0.0 && Square(root(x)) == x
  }

  datatype Interval = Interval(low: real, high: real)

  /** A value, or the ValueError the source raises. */
  datatype Checked<+T> = Value(value: T) | Invalid

  /** The interval before clamping, for success rate p over n trials. */
  function RawInterval(p: real, n: real, root: real -> real): (i: Interval)
    requires n > 0.0
  {
    var z2 := Z_95 * Z_95;
    var denom := 1.0 + z2 / n;
    var center := (p + z2 / (2.0 * n)) / denom;
    var margin := (Z_95 / denom) * root(Radicand(p, n));
    Interval(center - margin, center + margin)
  }

  function Radicand(p: real, n: real): (x: real)
    requires n > 0.0
  {
    p * (1.0 - p) / n + (Z_95 * Z_95) / (4.0 * n * n)
  }

  /** An interval formula over a success rate and a sample size. */
  type Formula = (real, real) -> Interval

  function WilsonFormula(root: real -> real): (raw: Formula) {
    (p, n) => if n > 0.0 then RawInterval(p, n, root) else Interval(0.0, 1.0)
  }

  /** wilson_ci, with its formula as a parameter: reject bad counts, apply, clamp. */
  function WilsonCi(successes: int, n: int, raw: Formula): (r: Checked<Interval>) {
    if n <= 0 || successes < 0 || successes > n then Invalid
    else
      var i := raw(Rate(successes, n), n as real);
      Value(Interval(Max(0.0, i.low), Min(1.0, i.high)))
  }

  function Rate(successes: int, n: int): (p: real)
    requires n != 0
  {
    successes as real / n as real
  }

  /** Strictly disjoint: touching intervals are not separated. */
  predicate Separated(a: Interval, b: Interval) {
    a.high < b.low || b.high < a.low
  }

  // ----- algebra, with a = z*z/n and m = z * sqrt(...) -----

  lemma SquareStrict(x: real, y: real)
    requires 0.0 <= y < x
    ensures Square(y) < Square(x)
  {
    Expand(y, x - y);
    ProductNonNegative(y, x - y);
  }

  /** Squares order non-negative numbers, strictly and not. */
  lemma SquareOrder(x: real, y: real)
    requires y >= 0.0
    ensures Square(x) <= Square(y) ==> x <= y
    ensures Square(x) < Square(y) ==> x < y
  {
    if x > y {
      SquareStrict(x, y);
    }
  }

  /** The squared half-width, scaled by the denominator. */
  function Spread(p: real, a: real): (s: real) {
    a * (p * (1.0 - p)) + Square(a) / 4.0
  }

  lemma Expand(x: real, y: real)
    ensures Square(x + y) == Square(x) + 2.0 * (x * y) + Square(y)
  {
    Distribute(x + y, x, y);
    Distribute(x, x, y);
    Distribute(y, x, y);
  }

  lemma BelowCenter(p: real, a: real)
    requires p >= 0.0 && a > 0.0
    ensures p > 0.0 ==> Spread(p, a) < Square(p + a / 2.0)
    ensures p == 0.0 ==> Spread(p, a) == Square(p + a / 2.0)
  {
    Expand(p, a / 2.0);
    Distribute(p, 1.0, p);
    Distribute(a, p, Square(p));
    if p > 0.0 {
      ProductPositive(a, Square(p));
    }
  }

  lemma AroundRate(p: real, a: real)
    requires 0.0 <= p <= 1.0 && a > 0.0
    ensures Square(a / 2.0 - p * a) <= Spread(p, a)
    ensures Square(p * a - a / 2.0) <= Spread(p, a)
  {
    var s := p * (1.0 - p);
    var d := 0.5 - p;
    RateVariance(p);
    SquareOfProduct(a, d);
    SquareOfProduct(a, -d);
    Distribute(a, 0.5, p);
    Distribute(a, p, 0.5);
    Distribute(Square(a), 0.25, s);
    ProductNonNegative(Square(a), s);
    ProductNonNegative(a, s);
  }

  lemma RateVariance(p: real)
    requires 0.0 <= p <= 1.0
    ensures p * (1.0 - p) >= 0.0
    ensures Square(0.5 - p) == Square(-(0.5 - p)) == 0.25 - p * (1.0 - p)
  {
    ProductNonNegative(p, 1.0 - p);
    Expand(0.5, -p);
    Expand(-0.5, p);
    Distribute(p, 1.0, p);
  }

  /** All bounds of the interval, each scaled by the denominator 1 + a. */
  lemma ScaledBounds(p: real, a: real, m: real)
    requires 0.0 <= p <= 1.0 && a > 0.0 && m >= 0.0 && Square(m) == Spread(p, a)
    ensures 0.0 < m <= p + a / 2.0 && (m == p + a / 2.0 <==> p == 0.0)
    ensures m <= 1.0 - p + a / 2.0 && (m == 1.0 - p + a / 2.0 <==> p == 1.0)
    ensures p + a / 2.0 - m <= p + p * a <= p + a / 2.0 + m
  {
    SpreadSymmetric(p, a);
    SpreadPositive(p, a);
    CenterBound(p, a, m);
    CenterBound(1.0 - p, a, m);
    AroundRate(p, a);
    SquareOrder(a / 2.0 - p * a, m);
    SquareOrder(p * a - a / 2.0, m);
  }

  lemma CenterBound(p: real, a: real, m: real)
    requires p >= 0.0 && a > 0.0 && m >= 0.0 && Square(m) == Spread(p, a)
    ensures m <= p + a / 2.0 && (m == p + a / 2.0 <==> p == 0.0)
  {
    BelowCenter(p, a);
    SquareOrder(m, p + a / 2.0);
    SquareOrder(p + a / 2.0, m);
  }

  lemma SpreadSymmetric(p: real, a: real)
    ensures Spread(1.0 - p, a) == Spread(p, a)
  {
    assert (1.0 - p) * (1.0 - (1.0 - p)) == p * (1.0 - p);
  }

  lemma SpreadPositive(p: real, a: real)
    requires 0.0 <= p <= 1.0 && a > 0.0
    ensures Spread(p, a) > 0.0
  {
    ProductNonNegative(p, 1.0 - p);
    ProductNonNegative(a, p * (1.0 - p));
  }

  // ----- from the source's formula to the scaled form -----

  lemma RadicandScaled(p: real, n: real)
    requires n > 0.0
    ensures Z_95 * Z_95 * Radicand(p, n) == Spread(p, Z_95 * Z_95 / n)
  {
    var z2 := Z_95 * Z_95;
    var a := z2 / n;
    var s := p * (1.0 - p);
    assert 4.0 * n * n == 4.0 * Square(n);
    Distribute(z2, s / n, z2 / (4.0 * n * n));
    TimesQuotient(z2, s, n);
    TimesQuotient(z2, z2, 4.0 * n * n);
    SquareOfQuotient(z2, n);
  }

  lemma TimesQuotient(x: real, y: real, d: real)
    requires d != 0.0
    ensures x * (y / d) == (x / d) * y == (x * y) / d
  {
  }

  lemma SquareOfQuotient(x: real, n: real)
    requires n > 0.0
    ensures Square(x / n) / 4.0 == Square(x) / (4.0 * n * n)
  {
    var y := x / n;
    assert x == y * n;
    SquareOfProduct(y, n);
    assert 4.0 * n * n == 4.0 * Square(n);
    Cancel(Square(y), Square(n));
  }

  lemma Cancel(x: real, d: real)
    requires d > 0.0
    ensures x * d / (4.0 * d) == x / 4.0
  {
  }

  // ----- the interval -----

  /** A proper interval inside [0, 1] around rate p, touching 0 or 1 only at those rates. */
  predicate Surrounds(i: Interval, p: real) {
    && 0.0 <= i.low <= p <= i.high <= 1.0 && i.low < i.high
    && (i.low == 0.0 <==> p == 0.0) && (i.high == 1.0 <==> p == 1.0)
  }

  function ScaledInterval(p: real, a: real, m: real): (i: Interval)
    requires a > 0.0
  {
    Interval((p + a / 2.0 - m) / (1.0 + a), (p + a / 2.0 + m) / (1.0 + a))
  }

  /** The source's formula is center -+ m over a common denominator, m the root of the spread. */
  lemma Scaled(p: real, n: real, root: real -> real) returns (a: real, m: real)
    requires 0.0 <= p <= 1.0 && n > 0.0 && IsSqrt(root)
    ensures a == Z_95 * Z_95 / n > 0.0
    ensures m == Z_95 * root(Radicand(p, n)) >= 0.0 && Square(m) == Spread(p, a)
    ensures RawInterval(p, n, root) == ScaledInterval(p, a, m)
  {
    var x := Radicand(p, n);
    var r := root(x);
    a := Z_95 * Z_95 / n;
    m := Z_95 * r;
    RadicandNonNegative(p, n);
    RootScaled(p, n, r);
    assert Z_95 * Z_95 / (2.0 * n) == a / 2.0;
    SumOfQuotients(p + a / 2.0, m, 1.0 + a);
    TimesQuotient(Z_95, r, 1.0 + a);
  }

  lemma RootScaled(p: real, n: real, r: real)
    requires n > 0.0 && Square(r) == Radicand(p, n)
    ensures Square(Z_95 * r) == Spread(p, Z_95 * Z_95 / n)
  {
    RadicandScaled(p, n);
    SquareOfProduct(Z_95, r);
  }

  lemma RadicandNonNegative(p: real, n: real)
    requires 0.0 <= p <= 1.0 && n > 0.0
    ensures Radicand(p, n) >= 0.0
  {
    ProductNonNegative(p, 1.0 - p);
    DivideMonotone(0.0, p * (1.0 - p), n);
    assert 4.0 * n * n == 4.0 * Square(n);
  }

  lemma SumOfQuotients(x: real, y: real, d: real)
    requires d > 0.0
    ensures x / d - y / d == (x - y) / d
    ensures x / d + y / d == (x + y) / d
  {
  }

  lemma ScaledSurrounds(p: real, a: real, m: real)
    requires 0.0 <= p <= 1.0 && a > 0.0 && m >= 0.0 && Square(m) == Spread(p, a)
    ensures Surrounds(ScaledInterval(p, a, m), p)
  {
    ScaledBounds(p, a, m);
    EndsSurround(p, a, m, p + p * a);
  }

  lemma EndsSurround(p: real, a: real, m: real, scaled: real)
    requires a > 0.0 && scaled == p + p * a && m > 0.0
    requires p + a / 2.0 - m <= scaled <= p + a / 2.0 + m
    requires m <= p + a / 2.0 && (m == p + a / 2.0 <==> p == 0.0)
    requires m <= 1.0 - p + a / 2.0 && (m == 1.0 - p + a / 2.0 <==> p == 1.0)
    ensures Surrounds(ScaledInterval(p, a, m), p)
  {
    var d := 1.0 + a;
    var c := p + a / 2.0;
    assert scaled == p * d;
    QuotientBounds(c - m, p, d);
    QuotientBounds(c + m, p, d);
    QuotientBounds(c - m, 0.0, d);
    QuotientBounds(c + m, 1.0, d);
    DivideStrict(c - m, c + m, d);
  }

  lemma DivideStrict(x: real, y: real, d: real)
    requires x < y && d > 0.0
    ensures x / d < y / d
  {
  }

  /** For every rate the unclamped interval surrounds the rate. */
  lemma RawIntervalContains(p: real, n: real, root: real -> real)
    requires 0.0 <= p <= 1.0 && n > 0.0 && IsSqrt(root)
    ensures Surrounds(RawInterval(p, n, root), p)
  {
    var a, m := Scaled(p, n, root);
    ScaledSurrounds(p, a, m);
  }

  /** Completing the square of the score equation. */
  lemma ScoreExpansion(x: real, p: real, a: real)
    ensures Square(x * (1.0 + a) - (p + a / 2.0)) - Spread(p, a) == (1.0 + a) * (Square(p - x) - a * (x * (1.0 - x)))
  {
  }

  lemma EndsSolveScore(p: real, n: real, root: real -> real, x: real)
    requires 0.0 <= p <= 1.0 && n > 0.0 && IsSqrt(root)
    requires x == WilsonFormula(root)(p, n).low || x == WilsonFormula(root)(p, n).high
    ensures SolvesScore(x, p, n)
  {
    var a, m := Scaled(p, n, root);
    ScaledEnd(x, p, a, m);
    ScoreAtSize(x, p, a, n);
  }

  lemma ScaledEnd(x: real, p: real, a: real, m: real)
    requires a > 0.0 && Square(m) == Spread(p, a)
    requires x == ScaledInterval(p, a, m).low || x == ScaledInterval(p, a, m).high
    ensures Square(x * (1.0 + a) - (p + a / 2.0)) == Spread(p, a)
  {
    QuotientTimes(p + a / 2.0 - m, 1.0 + a);
    QuotientTimes(p + a / 2.0 + m, 1.0 + a);
    SquareOfNegative(m);
  }

  lemma SolvesScaled(x: real, p: real, a: real)
    requires a > 0.0 && Square(x * (1.0 + a) - (p + a / 2.0)) == Spread(p, a)
    ensures Square(p - x) == a * (x * (1.0 - x))
  {
    ScoreExpansion(x, p, a);
    NoFactor(1.0 + a, Square(p - x) - a * (x * (1.0 - x)));
  }

  lemma SquareOfNegative(m: real)
    ensures Square(-m) == Square(m)
  {
  }

  lemma ScoreAtSize(x: real, p: real, a: real, n: real)
    requires n > 0.0 && a == Z_95 * Z_95 / n > 0.0
    requires Square(x * (1.0 + a) - (p + a / 2.0)) == Spread(p, a)
    ensures n * Square(p - x) == Square(Z_95) * (x * (1.0 - x))
  {
    SolvesScaled(x, p, a);
    TimesBoth(n, a, x * (1.0 - x));
  }

  lemma NoFactor(d: real, y: real)
    requires d > 0.0 && d * y == 0.0
    ensures y == 0.0
  {
  }

  lemma TimesBoth(n: real, a: real, v: real)
    requires n > 0.0 && a == Z_95 * Z_95 / n
    ensures n * (a * v) == Square(Z_95) * v
  {
    QuotientTimes(Z_95 * Z_95, n);
    assert n * (a * v) == (a * n) * v;
  }

  lemma QuotientBounds(x: real, y: real, d: real)
    requires d > 0.0
    ensures x / d <= y <==> x <= y * d
    ensures x / d >= y <==> x >= y * d
  {
  }

  /** Every rate's interval is proper, inside [0, 1], and contains the rate. */
  ghost predicate SurroundsAll(raw: Formula) {
    forall p, n :: 0.0 <= p <= 1.0 && n > 0.0 ==> Surrounds(raw(p, n), p)
  }

  /** The complementary rate's interval is the mirror image. */
  ghost predicate MirrorsAll(raw: Formula) {
    forall p, n :: 0.0 <= p <= 1.0 && n > 0.0 ==>
                     raw(1.0 - p, n) == Interval(1.0 - raw(p, n).high, 1.0 - raw(p, n).low)
  }

  /**
   * x solves the score equation of rate p at size n: it is a rate from which p lies exactly z
   * standard errors away, the error taken at x.
   */
  ghost predicate SolvesScore(x: real, p: real, n: real) {
    n * Square(p - x) == Square(1.959963984540054) * (x * (1.0 - x))
  }

  /** Both ends of every rate's interval solve its score equation. */
  ghost predicate SolvesAll(raw: Formula) {
    forall p, n :: 0.0 <= p <= 1.0 && n > 0.0 ==> SolvesScore(raw(p, n).low, p, n) && SolvesScore(raw(p, n).high, p, n)
  }

  /** Wilson's formula is the score interval, for every square root. */
  lemma WilsonFormulaSolvesScore(root: real -> real)
    requires IsSqrt(root)
    ensures SolvesAll(WilsonFormula(root))
  {
    var raw := WilsonFormula(root);
    forall p, n | 0.0 <= p <= 1.0 && n > 0.0
      ensures SolvesScore(raw(p, n).low, p, n) && SolvesScore(raw(p, n).high, p, n)
    {
      EndsSolveScore(p, n, root, raw(p, n).low);
      EndsSolveScore(p, n, root, raw(p, n).high);
    }
  }

  /** Wilson's formula surrounds every rate and mirrors, for every square root. */
  lemma WilsonFormulaIsSound(root: real -> real)
    requires IsSqrt(root)
    ensures SurroundsAll(WilsonFormula(root)) && MirrorsAll(WilsonFormula(root))
  {
    var raw := WilsonFormula(root);
    forall p, n | 0.0 <= p <= 1.0 && n > 0.0
      ensures Surrounds(raw(p, n), p)
      ensures raw(1.0 - p, n) == Interval(1.0 - raw(p, n).high, 1.0 - raw(p, n).low)
    {
      RawIntervalContains(p, n, root);
      RawMirror(p, n, root);
    }
  }

  /**
   * The promise of wilson_ci: an error exactly off 0 <= s <= n, n >= 1; else the unclamped
   * interval, which surrounds the rate.
   */
  lemma WilsonContains(s: int, n: int, raw: Formula)
    requires SurroundsAll(raw)
    ensures WilsonCi(s, n, raw).Invalid? <==> n <= 0 || s < 0 || s > n
    ensures n >= 1 && 0 <= s <= n ==>
              WilsonCi(s, n, raw) == Value(raw(Rate(s, n), n as real)) && Surrounds(raw(Rate(s, n), n as real), Rate(s, n))
  {
    if n > 0 && 0 <= s <= n {
      FailureRate(s, n);
    }
  }

  /** Counting failures instead of successes mirrors the interval. */
  lemma WilsonMirror(s: int, n: int, raw: Formula)
    requires SurroundsAll(raw) && MirrorsAll(raw) && n >= 1 && 0 <= s <= n
    ensures
      var i := WilsonCi(s, n, raw).value;
      WilsonCi(n - s, n, raw) == Value(Interval(1.0 - i.high, 1.0 - i.low))
  {
    WilsonContains(s, n, raw);
    WilsonContains(n - s, n, raw);
    FailureRate(s, n);
  }

  lemma FailureRate(s: int, n: int)
    requires n >= 1 && 0 <= s <= n
    ensures Rate(n - s, n) == 1.0 - Rate(s, n)
    ensures 0.0 <= Rate(s, n) <= 1.0
  {
    QuotientBounds(s as real, 0.0, n as real);
    QuotientBounds(s as real, 1.0, n as real);
    SumOfQuotients(n as real, s as real, n as real);
    SelfQuotient(n as real);
  }

  lemma SelfQuotient(d: real)
    requires d > 0.0
    ensures d / d == 1.0
  {
  }

  lemma RawMirror(p: real, n: real, root: real -> real)
    requires 0.0 <= p <= 1.0 && n > 0.0 && IsSqrt(root)
    ensures
      var i := RawInterval(p, n, root);
      RawInterval(1.0 - p, n, root) == Interval(1.0 - i.high, 1.0 - i.low)
  {
    RadicandSymmetric(p, n);
    var a, m := Scaled(p, n, root);
    var b, k := Scaled(1.0 - p, n, root);
    ScaledMirror(p, a, m);
  }

  lemma RadicandSymmetric(p: real, n: real)
    requires n > 0.0
    ensures Radicand(1.0 - p, n) == Radicand(p, n)
  {
    assert (1.0 - p) * (1.0 - (1.0 - p)) == p * (1.0 - p);
  }

  lemma ScaledMirror(p: real, a: real, m: real)
    requires a > 0.0
    ensures
      var i := ScaledInterval(p, a, m);
      ScaledInterval(1.0 - p, a, m) == Interval(1.0 - i.high, 1.0 - i.low)
  {
    var q, d := 1.0 - p, 1.0 + a;
    SumOfQuotients(q + a / 2.0 - m, p + a / 2.0 + m, d);
    SumOfQuotients(q + a / 2.0 + m, p + a / 2.0 - m, d);
  }
}
