/**
 * The switch verdict: does a candidate model lower the cost per outcome, with the outcome rate
 * shown to hold? Reals stand for Decimal and float; square root, normal CDF and normal quantile
 * are parameters.
 */
module Switch {
  import opened Numeric
  import opened Confidence
  import opened Records
  import opened Wilson

  // ----- unit costs -----

  const CENTS: real := 100.0

  function CostPerOutcome(usd: real, outcomes: int): (r: Option<real>) {
    if outcomes <= 0 then None else Some(Quantize(usd / outcomes as real, CENTS))
  }

  function PctChange(incumbent: Option<real>, candidate: Option<real>): (r: Option<real>) {
    if incumbent.None? || candidate.None? || incumbent.value == 0.0 then None
    else Some(Quantize((candidate.value - incumbent.value) / incumbent.value * 100.0, CENTS))
  }

  /** The reported saving: the rounded change is negative. */
  predicate Cheaper(incumbentUsd: real, candidateUsd: real, outcomes: int) {
    var pct := PctChange(CostPerOutcome(incumbentUsd, outcomes), CostPerOutcome(candidateUsd, outcomes));
    pct.Some? && pct.value < 0.0
  }

  // ----- the non-inferiority test -----

  const ALPHA: real := 0.05
  const POWER: real := 0.80
  const IMPOSSIBLE_SAMPLE: int := 0x8000_0000

  /** Standard error of the difference of two rates, from (rate, size, rate, size); Invalid is the domain error. */
  type ErrorFormula = (real, real, real, real) -> Checked<real>

  /** The functions of the test: its standard error, and the normal CDF and quantile. */
  datatype Normal = Normal(error: ErrorFormula, cdf: real -> real, quantile: real -> real)

  function Variance(c: real, m: real, i: real, n: real): (v: real)
    requires m > 0.0 && n > 0.0
  {
    c * (1.0 - c) / m + i * (1.0 - i) / n
  }

  /** The source's formula: the square root of the variance, a domain error below zero. */
  function StandardError(root: real -> real): (error: ErrorFormula) {
    (c, m, i, n) =>
      if m <= 0.0 || n <= 0.0 || Variance(c, m, i, n) < 0.0 then Invalid else Value(root(Variance(c, m, i, n)))
  }

  ghost predicate NonNegativeErrors(error: ErrorFormula) {
    forall c, m, i, n :: error(c, m, i, n).Value? ==> error(c, m, i, n).value >= 0.0
  }

  /** It fails exactly on a negative variance, and is zero exactly when the variance is. */
  lemma StandardErrorIsSound(root: real -> real, c: real, m: real, i: real, n: real)
    requires IsSqrt(root) && m > 0.0 && n > 0.0
    ensures NonNegativeErrors(StandardError(root))
    ensures StandardError(root)(c, m, i, n).Invalid? <==> Variance(c, m, i, n) < 0.0
    ensures StandardError(root)(c, m, i, n) == Value(0.0) <==> Variance(c, m, i, n) == 0.0
  {
    if Variance(c, m, i, n) >= 0.0 {
      RootZero(root, Variance(c, m, i, n));
    }
  }

  lemma RootZero(root: real -> real, x: real)
    requires IsSqrt(root) && x >= 0.0
    ensures root(x) >= 0.0 && (root(x) == 0.0 <==> x == 0.0)
  {
    assert Square(root(x)) == x;
  }

  function Ceiling(x: real): (k: int)
    ensures k as real - 1.0 < x <= k as real
  {
    -((-x).Floor)
  }

  function RequiredSampleSize(baseline: real, margin: real, normal: Normal): (n: int) {
    if margin <= 0.0 then IMPOSSIBLE_SAMPLE
    else
      Ceiling(Demand(baseline, normal) / Square(margin))
  }

  /** Squared quantiles times twice the clamped baseline's variance. */
  function Demand(baseline: real, normal: Normal): (d: real) {
    var p := Min(Max(baseline, 0.000001), 0.999999);
    var z := normal.quantile(1.0 - ALPHA) + normal.quantile(POWER);
    Square(z) * 2.0 * p * (1.0 - p)
  }

  datatype Arms = Arms(candidateSuccesses: int, candidateN: int, incumbentSuccesses: int, incumbentN: int)

  /** nonInferior is None exactly when the test is undecided. */
  datatype Verdict = Verdict(decided: bool, nonInferior: Option<bool>, pValue: real,
                             candidateRate: real, incumbentRate: real, margin: real, nPerArm: int)

  /** The standard error of an experiment's two arms. */
  function ErrorOf(arms: Arms, normal: Normal): (e: Checked<real>)
    requires arms.candidateN > 0 && arms.incumbentN > 0
  {
    normal.error(Rate(arms.candidateSuccesses, arms.candidateN), arms.candidateN as real,
                 Rate(arms.incumbentSuccesses, arms.incumbentN), arms.incumbentN as real)
  }

  function NonInferiority(arms: Arms, margin: real, normal: Normal): (r: Checked<Verdict>) {
    if arms.candidateN <= 0 || arms.incumbentN <= 0 then
      Value(Verdict(false, None, 1.0, 0.0, 0.0, margin, 0))
    else
      var c := Rate(arms.candidateSuccesses, arms.candidateN);
      var i := Rate(arms.incumbentSuccesses, arms.incumbentN);
      var n := if arms.candidateN < arms.incumbentN then arms.candidateN else arms.incumbentN;
      match ErrorOf(arms, normal)
      case Invalid => Invalid
      case Value(error) =>
        if error == 0.0 then Value(Verdict(false, None, 1.0, c, i, margin, n))
        else
          var pValue := 1.0 - normal.cdf((c - i + margin) / error);
          if n < RequiredSampleSize(i, margin, normal)
          then Value(Verdict(false, None, pValue, c, i, margin, n))
          else Value(Verdict(true, Some(pValue < ALPHA), pValue, c, i, margin, n))
  }

  // ----- the verdict -----

  /** The four optional arguments of an experiment; all are needed together. */
  datatype Experiment = Experiment(candidateSuccesses: Option<int>, candidateN: Option<int>,
                                   incumbentSuccesses: Option<int>, incumbentN: Option<int>)
  {
    predicate Complete() {
      candidateSuccesses.Some? && candidateN.Some? && incumbentSuccesses.Some? && incumbentN.Some?
    }

    function ToArms(): (arms: Arms)
      requires Complete()
    {
      Arms(candidateSuccesses.value, candidateN.value, incumbentSuccesses.value, incumbentN.value)
    }
  }

  datatype SwitchVerdict = SwitchVerdict(
    incumbentCost: Option<real>, candidateCost: Option<real>, pctChange: Option<real>,
    test: Option<Verdict>, evidence: CausalEvidence, safeToSwitch: bool, requiredPerArm: Option<int>)

  function RunExperiment(e: Experiment, margin: real, normal: Normal): (r: Checked<Option<Verdict>>) {
    if !e.Complete() then Value(None)
    else
      match NonInferiority(e.ToArms(), margin, normal)
      case Invalid => Invalid
      case Value(v) => Value(Some(v))
  }

  predicate Proven(test: Option<Verdict>) {
    test.Some? && test.value.decided && test.value.nonInferior == Some(true)
  }

  function EvaluateSwitch(incumbentUsd: real, candidateUsd: real, outcomes: int, e: Experiment,
                          margin: real, normal: Normal): (r: Checked<SwitchVerdict>)
  {
    var perIncumbent := CostPerOutcome(incumbentUsd, outcomes);
    var perCandidate := CostPerOutcome(candidateUsd, outcomes);
    var pct := PctChange(perIncumbent, perCandidate);
    match RunExperiment(e, margin, normal)
    case Invalid => Invalid
    case Value(test) =>
      Value(SwitchVerdict(
        perIncumbent, perCandidate, pct, test,
        if Proven(test) then Randomized else Observational,
        Proven(test) && pct.Some? && pct.value < 0.0,
        if test.None? || test.value.decided then None
        else Some(RequiredSampleSize(test.value.incumbentRate, test.value.margin, normal))))
  }

  // ----- what a reported saving means -----

  /** Rounded unit costs in whole cents. */
  function UnitCents(usd: real, outcomes: int): (k: int)
    requires outcomes > 0
  {
    HalfEven(usd / outcomes as real * CENTS)
  }

  /** The change in hundredths of a percent, compared with minus one half. */
  lemma RelativeChange(c: real, i: real)
    requires i != 0.0
    ensures i > 0.0 ==> ((c - i) / i * 100.0 * CENTS < -0.5 <==> 20000.0 * (i - c) > i)
    ensures i < 0.0 ==> ((c - i) / i * 100.0 * CENTS < -0.5 <==> 20000.0 * (c - i) > -i)
  {
    var y := (c - i) / i;
    assert y * i == c - i;
    if i > 0.0 {
      ScaleOrder(y * 20000.0, -1.0, i);
    } else {
      ScaleOrder(y * 20000.0, -1.0, -i);
    }
    assert (y * 20000.0) * i == 20000.0 * (c - i);
  }

  lemma ScaleOrder(x: real, y: real, d: real)
    requires d > 0.0
    ensures x < y <==> x * d < y * d
  {
    if x < y {
      ProductPositive(y - x, d);
    } else {
      ProductNonNegative(x - y, d);
    }
  }

  /** The exact condition, on the two unit costs in cents. */
  lemma CheaperIff(incumbentUsd: real, candidateUsd: real, outcomes: int)
    ensures Cheaper(incumbentUsd, candidateUsd, outcomes) <==>
            && outcomes > 0
            && var i, c := UnitCents(incumbentUsd, outcomes), UnitCents(candidateUsd, outcomes);
               (i > 0 && 20000 * (i - c) > i) || (i < 0 && 20000 * (c - i) > -i)
  {
    if outcomes > 0 {
      var i := UnitCents(incumbentUsd, outcomes) as real / CENTS;
      var c := UnitCents(candidateUsd, outcomes) as real / CENTS;
      if i != 0.0 {
        HalfEvenNegative((c - i) / i * 100.0 * CENTS);
        RelativeChange(c, i);
      }
    }
  }

  /**
   * No rounding can turn a dearer candidate into a saving: a reported saving means strictly less
   * spend, unless the incumbent's own spend is negative, where it means strictly more.
   */
  lemma CheaperMeansLessSpend(incumbentUsd: real, candidateUsd: real, outcomes: int)
    requires Cheaper(incumbentUsd, candidateUsd, outcomes)
    ensures outcomes > 0 && incumbentUsd != 0.0
    ensures incumbentUsd > 0.0 <==> candidateUsd < incumbentUsd
    ensures incumbentUsd < 0.0 <==> candidateUsd > incumbentUsd
  {
    CheaperIff(incumbentUsd, candidateUsd, outcomes);
    UnitCentsMonotone(incumbentUsd, 0.0, outcomes);
    UnitCentsMonotone(0.0, incumbentUsd, outcomes);
    UnitCentsMonotone(incumbentUsd, candidateUsd, outcomes);
    UnitCentsMonotone(candidateUsd, incumbentUsd, outcomes);
  }

  lemma UnitCentsMonotone(x: real, y: real, outcomes: int)
    requires outcomes > 0
    ensures x <= y ==> UnitCents(x, outcomes) <= UnitCents(y, outcomes)
    ensures UnitCents(0.0, outcomes) == 0
  {
    var n := outcomes as real;
    assert 0.0 / n == 0.0;
    HalfEvenWhole(0);
    if x <= y {
      DivideMonotone(x, y, n);
      HalfEvenMonotone(x / n * CENTS, y / n * CENTS);
    }
  }

  /** Below 200 dollars per outcome every whole-cent saving is reported ... */
  lemma SmallUnitCostsShowEverySaving(incumbentUsd: real, candidateUsd: real, outcomes: int)
    requires outcomes > 0 && 0 < UnitCents(incumbentUsd, outcomes) < 20000
    ensures Cheaper(incumbentUsd, candidateUsd, outcomes) <==>
            UnitCents(candidateUsd, outcomes) < UnitCents(incumbentUsd, outcomes)
  {
    CheaperIff(incumbentUsd, candidateUsd, outcomes);
  }

  /** ... and from 200 dollars on a one-cent saving is rounded away. */
  lemma OneCentIsLostAbove(incumbentUsd: real, candidateUsd: real, outcomes: int)
    requires outcomes > 0 && UnitCents(incumbentUsd, outcomes) >= 20000
    requires UnitCents(candidateUsd, outcomes) == UnitCents(incumbentUsd, outcomes) - 1
    ensures !Cheaper(incumbentUsd, candidateUsd, outcomes)
  {
    CheaperIff(incumbentUsd, candidateUsd, outcomes);
  }

  // ----- what safe_to_switch means -----

  /**
   * An arm is large enough exactly when its size times the squared margin covers the demand; so
   * a wider margin never needs more, and a margin of zero or less needs the impossible size.
   */
  lemma EnoughIff(n: int, baseline: real, margin: real, wider: real, normal: Normal)
    requires margin <= wider
    ensures margin > 0.0 ==>
              (n >= RequiredSampleSize(baseline, margin, normal) <==>
               n as real * Square(margin) >= Demand(baseline, normal))
    ensures margin > 0.0 && n >= 0 && n >= RequiredSampleSize(baseline, margin, normal) ==>
              n >= RequiredSampleSize(baseline, wider, normal)
    ensures margin <= 0.0 ==> RequiredSampleSize(baseline, margin, normal) == IMPOSSIBLE_SAMPLE
  {
    if margin > 0.0 {
      CeilingCovers(n, Demand(baseline, normal), Square(margin));
      CeilingCovers(n, Demand(baseline, normal), Square(wider));
      if n >= 0 {
        SquareOrder(wider, margin);
        ProductNonNegative(n as real, Square(wider) - Square(margin));
        Distribute(n as real, Square(wider), Square(margin));
      }
    }
  }

  lemma CeilingCovers(n: int, demand: real, d: real)
    requires d > 0.0
    ensures n >= Ceiling(demand / d) <==> n as real * d >= demand
  {
    QuotientBounds(demand, n as real, d);
  }

  /** The test rejects: the shifted difference of rates, in standard errors, is too large for chance. */
  ghost predicate Rejects(gap: real, error: real, normal: Normal)
    requires error != 0.0
  {
    1.0 - normal.cdf(gap / error) < ALPHA
  }

  /** Both arms non-empty and varied, each as large as the power guard asks, and the test rejected. */
  ghost predicate Powered(arms: Arms, margin: real, normal: Normal) {
    && arms.candidateN > 0 && arms.incumbentN > 0
    && (var c, i := Rate(arms.candidateSuccesses, arms.candidateN), Rate(arms.incumbentSuccesses, arms.incumbentN);
        var error, need := ErrorOf(arms, normal), RequiredSampleSize(i, margin, normal);
        && error.Value? && error.value != 0.0 && Rejects(c - i + margin, error.value, normal)
        && arms.candidateN >= need && arms.incumbentN >= need)
  }

  lemma ProvenIffPowered(arms: Arms, margin: real, normal: Normal)
    ensures
      var r := NonInferiority(arms, margin, normal);
      && (r.Invalid? <==> arms.candidateN > 0 && arms.incumbentN > 0 && ErrorOf(arms, normal).Invalid?)
      && (r.Value? ==> (Proven(Some(r.value)) <==> Powered(arms, margin, normal)))
      && (r.Value? ==> (r.value.nonInferior.None? <==> !r.value.decided))
  {
  }

  /** safe_to_switch is a reported saving together with a complete, powered, rejecting experiment. */
  lemma SafeIff(incumbentUsd: real, candidateUsd: real, outcomes: int, e: Experiment, margin: real,
                normal: Normal)
    ensures
      var r := EvaluateSwitch(incumbentUsd, candidateUsd, outcomes, e, margin, normal);
      && (r.Value? && r.value.safeToSwitch <==>
          && Cheaper(incumbentUsd, candidateUsd, outcomes)
          && e.Complete() && Powered(e.ToArms(), margin, normal))
      && (r.Value? ==> (r.value.evidence == Randomized <==>
                        e.Complete() && Powered(e.ToArms(), margin, normal)))
      && (r.Value? ==> (r.value.requiredPerArm.Some? <==> r.value.test.Some? && !r.value.test.value.decided))
  {
    if e.Complete() {
      ProvenIffPowered(e.ToArms(), margin, normal);
    }
  }

  ghost predicate IsNormalCdf(cdf: real -> real) {
    cdf(0.0) == 0.5 && forall x, y :: x <= y ==> cdf(x) <= cdf(y)
  }

  /**
   * With non-negative spend, a safe verdict means strictly less spend before any rounding, a
   * positive outcome count, both arms at the required size, and a measured candidate rate that
   * lies less than the margin below the incumbent's.
   */
  lemma SafeToSwitchMeans(incumbentUsd: real, candidateUsd: real, outcomes: int, e: Experiment,
                          margin: real, normal: Normal)
    requires NonNegativeErrors(normal.error) && IsNormalCdf(normal.cdf)
    requires incumbentUsd >= 0.0
    requires var r := EvaluateSwitch(incumbentUsd, candidateUsd, outcomes, e, margin, normal);
             r.Value? && r.value.safeToSwitch
    ensures candidateUsd < incumbentUsd && outcomes > 0
    ensures e.Complete() && Powered(e.ToArms(), margin, normal)
    ensures Rate(e.candidateSuccesses.value, e.candidateN.value) >
            Rate(e.incumbentSuccesses.value, e.incumbentN.value) - margin
  {
    SafeIff(incumbentUsd, candidateUsd, outcomes, e, margin, normal);
    CheaperMeansLessSpend(incumbentUsd, candidateUsd, outcomes);
    RejectionBoundsTheLoss(e.ToArms(), margin, normal);
  }

  /** The same for the deployed test: its standard error, for every square root. */
  lemma SafeSwitchMeans(incumbentUsd: real, candidateUsd: real, outcomes: int, e: Experiment, margin: real,
                        normal: Normal, root: real -> real)
    requires IsSqrt(root) && normal.error == StandardError(root) && IsNormalCdf(normal.cdf)
    requires incumbentUsd >= 0.0
    requires var r := EvaluateSwitch(incumbentUsd, candidateUsd, outcomes, e, margin, normal);
             r.Value? && r.value.safeToSwitch
    ensures candidateUsd < incumbentUsd && outcomes > 0
    ensures e.Complete() && Powered(e.ToArms(), margin, normal)
    ensures Rate(e.candidateSuccesses.value, e.candidateN.value) >
            Rate(e.incumbentSuccesses.value, e.incumbentN.value) - margin
  {
    StandardErrorIsSound(root, 0.0, 1.0, 0.0, 1.0);
    SafeToSwitchMeans(incumbentUsd, candidateUsd, outcomes, e, margin, normal);
  }

  lemma RejectionBoundsTheLoss(arms: Arms, margin: real, normal: Normal)
    requires NonNegativeErrors(normal.error) && IsNormalCdf(normal.cdf) && Powered(arms, margin, normal)
    ensures Rate(arms.candidateSuccesses, arms.candidateN) > Rate(arms.incumbentSuccesses, arms.incumbentN) - margin
  {
    var c, i := Rate(arms.candidateSuccesses, arms.candidateN), Rate(arms.incumbentSuccesses, arms.incumbentN);
    QuotientBounds(c - i + margin, 0.0, ErrorOf(arms, normal).value);
  }
}
