/** What the fields of a switch verdict say, in the terms of the spend, the arms and the margin. */
module SwitchMeaning {
  import opened Numeric
  import opened Confidence
  import opened Wilson
  import opened Switch

  // ----- the costs -----

  /** The spend over the outcomes, in whole cents; absent without outcomes. */
  ghost predicate CostField(v: Option<real>, usd: real, outcomes: int) {
    && (v.None? <==> outcomes <= 0)
    && (v.Some? ==> IsQuotientInCents(v.value, usd, outcomes as real))
  }

  /** The change of the cost in percent, in whole hundredths; absent over no cost or a cost of zero. */
  ghost predicate ChangeField(pct: Option<real>, i: Option<real>, c: Option<real>) {
    && (pct.None? <==> i.None? || c.None? || i.value == 0.0)
    && (pct.Some? && i.value > 0.0 ==> IsQuotientInCents(pct.value, 100.0 * (c.value - i.value), i.value))
    && (pct.Some? && i.value < 0.0 ==> IsQuotientInCents(pct.value, 100.0 * (i.value - c.value), -i.value))
  }

  lemma CostPerOutcomeMeans(usd: real, outcomes: int)
    ensures CostField(CostPerOutcome(usd, outcomes), usd, outcomes)
  {
    if outcomes > 0 {
      QuotientTimes(usd, outcomes as real);
      QuantizedInCents(usd / outcomes as real, usd, outcomes as real);
    }
  }

  lemma PctChangeMeans(i: Option<real>, c: Option<real>)
    ensures ChangeField(PctChange(i, c), i, c)
  {
    if i.Some? && c.Some? && i.value != 0.0 {
      Percent(c.value - i.value, i.value);
    }
  }

  lemma Percent(gap: real, i: real)
    requires i != 0.0
    ensures i > 0.0 ==> IsQuotientInCents(Quantize(gap / i * 100.0, CENTS), 100.0 * gap, i)
    ensures i < 0.0 ==> IsQuotientInCents(Quantize(gap / i * 100.0, CENTS), 100.0 * -gap, -i)
  {
    var p := gap / i * 100.0;
    QuotientTimes(gap, i);
    assert p * i == 100.0 * gap;
    if i > 0.0 {
      QuantizedInCents(p, 100.0 * gap, i);
    } else {
      assert p * -i == 100.0 * -gap;
      QuantizedInCents(p, 100.0 * -gap, -i);
    }
  }

  /** The three money fields of a verdict. */
  lemma CostFields(incumbentUsd: real, candidateUsd: real, outcomes: int, e: Experiment, margin: real, normal: Normal)
    ensures
      var r := EvaluateSwitch(incumbentUsd, candidateUsd, outcomes, e, margin, normal);
      r.Value? ==>
        && CostField(r.value.incumbentCost, incumbentUsd, outcomes)
        && CostField(r.value.candidateCost, candidateUsd, outcomes)
        && ChangeField(r.value.pctChange, r.value.incumbentCost, r.value.candidateCost)
  {
    CostPerOutcomeMeans(incumbentUsd, outcomes);
    CostPerOutcomeMeans(candidateUsd, outcomes);
    PctChangeMeans(CostPerOutcome(incumbentUsd, outcomes), CostPerOutcome(candidateUsd, outcomes));
  }

  // ----- the test -----

  /** Both rates are successes over trials, and the size is the smaller arm's. */
  ghost predicate RateFields(v: Verdict, arms: Arms) {
    && v.candidateRate * arms.candidateN as real == arms.candidateSuccesses as real
    && v.incumbentRate * arms.incumbentN as real == arms.incumbentSuccesses as real
    && v.nPerArm <= arms.candidateN && v.nPerArm <= arms.incumbentN
    && (v.nPerArm == arms.candidateN || v.nPerArm == arms.incumbentN)
  }

  /** The p-value, whether the test decides, and what; off the reported rates and size. */
  ghost predicate TestFields(v: Verdict, arms: Arms, margin: real, normal: Normal) {
    var error := normal.error(v.candidateRate, arms.candidateN as real, v.incumbentRate, arms.incumbentN as real);
    && v.margin == margin && error.Value?
    && v.pValue == (if error.value == 0.0 then 1.0
                    else 1.0 - normal.cdf((v.candidateRate - v.incumbentRate + margin) / error.value))
    && (v.decided <==> error.value != 0.0 && v.nPerArm >= RequiredSampleSize(v.incumbentRate, margin, normal))
    && v.nonInferior == if v.decided then Some(v.pValue < 0.05) else None
  }

  lemma TestMeans(arms: Arms, margin: real, normal: Normal)
    requires NonInferiority(arms, margin, normal).Value?
    ensures
      var v := NonInferiority(arms, margin, normal).value;
      if arms.candidateN <= 0 || arms.incumbentN <= 0 then v == Verdict(false, None, 1.0, 0.0, 0.0, margin, 0)
      else RateFields(v, arms) && TestFields(v, arms, margin, normal)
  {
    if arms.candidateN > 0 && arms.incumbentN > 0 {
      var v := NonInferiority(arms, margin, normal).value;
      DecisionMeans(arms, Rate(arms.candidateSuccesses, arms.candidateN), Rate(arms.incumbentSuccesses, arms.incumbentN),
                    margin, normal);
      RatesMean(v, arms);
    }
  }

  lemma RatesMean(v: Verdict, arms: Arms)
    requires arms.candidateN > 0 && arms.incumbentN > 0
    requires v.candidateRate == Rate(arms.candidateSuccesses, arms.candidateN)
    requires v.incumbentRate == Rate(arms.incumbentSuccesses, arms.incumbentN)
    requires v.nPerArm == if arms.candidateN < arms.incumbentN then arms.candidateN else arms.incumbentN
    ensures RateFields(v, arms)
  {
    RateTimes(arms.candidateSuccesses, arms.candidateN);
    RateTimes(arms.incumbentSuccesses, arms.incumbentN);
  }

  lemma RateTimes(s: int, n: int)
    requires n != 0
    ensures Rate(s, n) * n as real == s as real
  {
    QuotientTimes(s as real, n as real);
  }

  lemma DecisionMeans(arms: Arms, c: real, i: real, margin: real, normal: Normal)
    requires arms.candidateN > 0 && arms.incumbentN > 0 && NonInferiority(arms, margin, normal).Value?
    requires c == Rate(arms.candidateSuccesses, arms.candidateN) && i == Rate(arms.incumbentSuccesses, arms.incumbentN)
    ensures
      var v := NonInferiority(arms, margin, normal).value;
      && v.candidateRate == c && v.incumbentRate == i && TestFields(v, arms, margin, normal)
      && v.nPerArm == if arms.candidateN < arms.incumbentN then arms.candidateN else arms.incumbentN
  {
  }

  /** A test is reported exactly for a complete experiment, and a required size for an undecided test. */
  lemma ExperimentFields(incumbentUsd: real, candidateUsd: real, outcomes: int, e: Experiment, margin: real, normal: Normal)
    ensures
      var r := EvaluateSwitch(incumbentUsd, candidateUsd, outcomes, e, margin, normal);
      r.Value? ==>
        && r.value.test == (if e.Complete() then Some(NonInferiority(e.ToArms(), margin, normal).value) else None)
        && r.value.requiredPerArm ==
           if e.Complete() && !r.value.test.value.decided
           then Some(RequiredSampleSize(r.value.test.value.incumbentRate, margin, normal)) else None
  {
    if e.Complete() && NonInferiority(e.ToArms(), margin, normal).Value? {
      TestMeans(e.ToArms(), margin, normal);
    }
  }

  /** The standard error, squared and cleared of fractions: the two arms' variances added. */
  lemma ErrorMeans(root: real -> real, c: real, m: real, i: real, n: real)
    requires IsSqrt(root) && m > 0.0 && n > 0.0 && StandardError(root)(c, m, i, n).Value?
    ensures StandardError(root)(c, m, i, n).value >= 0.0
    ensures m * n * Square(StandardError(root)(c, m, i, n).value) == c * (1.0 - c) * n + i * (1.0 - i) * m
  {
    var v := Variance(c, m, i, n);
    assert Square(root(v)) == v;
    ClearFractions(c * (1.0 - c), m, i * (1.0 - i), n);
  }

  lemma ClearFractions(x: real, m: real, y: real, n: real)
    requires m > 0.0 && n > 0.0
    ensures m * n * (x / m + y / n) == x * n + y * m
  {
    QuotientTimes(x, m);
    QuotientTimes(y, n);
    Distribute(m * n, x / m, y / n);
    assert m * n * (x / m) == (x / m * m) * n;
    assert m * n * (y / n) == (y / n * n) * m;
  }

  /** The rate the sample size is computed for, kept off zero and one. */
  predicate ClampedRate(p: real, baseline: real) {
    && (0.000001 <= baseline <= 0.999999 ==> p == baseline)
    && (baseline < 0.000001 ==> p == 0.000001) && (baseline > 0.999999 ==> p == 0.999999)
  }

  /** The required size is the least k whose k times the squared margin covers (z_a + z_b)^2 * 2p(1 - p). */
  lemma SampleSizeMeans(baseline: real, p: real, margin: real, normal: Normal, k: int)
    requires ClampedRate(p, baseline) && margin > 0.0
    ensures k >= RequiredSampleSize(baseline, margin, normal) <==>
            k as real * Square(margin) >= Square(normal.quantile(0.95) + normal.quantile(0.80)) * 2.0 * p * (1.0 - p)
  {
    CeilingCovers(k, Demand(baseline, normal), Square(margin));
  }

  /** Without a positive margin no size suffices: the answer is 2^31. */
  lemma NoMarginNoSize(baseline: real, margin: real, normal: Normal)
    requires margin <= 0.0
    ensures RequiredSampleSize(baseline, margin, normal) == 2147483648
  {
  }
}
