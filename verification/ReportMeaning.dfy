/** What the fields of a report cell say, in the terms of the records and of the cell itself. */
module ReportMeaning {
  import opened Numeric
  import opened Folds
  import opened Confidence
  import opened Records
  import opened Metrics

  // ----- the value: numerator over denominator, to the cent -----

  lemma RatioInCents(x: real, n: nat)
    requires n > 0
    ensures RatioOf(x, n).Some? && IsQuotientInCents(RatioOf(x, n).value, x, n as real)
  {
    QuotientTimes(x, n as real);
    QuantizedInCents(x / n as real, x, n as real);
  }

  /**
   * In every report a cell has a value exactly when its denominator is not zero, and the value is
   * then its numerator divided by its denominator, in whole cents, ties to even.
   */
  lemma ValueIsTheQuotient(q: Query, r: MetricResult, i: nat)
    requires IsReport(q, r) && i < |r.cells|
    ensures r.cells[i].value.None? <==> r.cells[i].denominator == 0
    ensures r.cells[i].value.Some? ==> IsQuotientInCents(r.cells[i].value.value, r.cells[i].numerator, r.cells[i].denominator as real)
  {
    var c := r.cells[i];
    assert c == CellOf(q, CellKeys(q)[i]);
    if c.denominator != 0 {
      RatioInCents(c.numerator, c.denominator);
    }
  }

  // ----- the counts -----

  /**
   * Outside of cost per verified outcome every event of a cell is in its numerator, whole: the
   * cell's spend, its attempts or its confirmed outcomes, and no shared attribution.
   */
  lemma PlainNumerator(q: Query, r: MetricResult, i: nat)
    requires IsReport(q, r) && i < |r.cells|
    requires q.plan.numerator != TotalCostUsd || q.plan.denominator != VerifiedOutcomeCount
    ensures
      var k := CellKeys(q)[i];
      && r.cells[i].sharedAttribution == 0
      && r.cells[i].numerator ==
         match q.plan.numerator
         case TotalCostUsd => SumBy(q.events, e => if EventInCell(q, k, e) then CostOf(e) else 0.0)
         case AttemptCount => CountBy(q.events, e => EventInCell(q, k, e)) as real
         case _ => CountBy(q.outcomes, o => InCell(q, k, o) && o.signal == OutcomeConfirmed) as real
  {
    var k := CellKeys(q)[i];
    assert r.cells[i] == CellOf(q, k);
    SumByCongruent(q.events, e => Charge(q, k, e), e => if EventInCell(q, k, e) then CostOf(e) else 0.0);
    CountByCongruent(q.events, e => InNumerator(q, k, e), e => EventInCell(q, k, e));
    CountByPositive(q.events, e => InNumerator(q, k, e) && Overlapping(q, e.runId));
  }

  // ----- confidence, classes, keys, filters -----

  /** A cell no bound outcome reaches is headlined likely, never billing-grade. */
  lemma UnboundCellIsLikely(q: Query, r: MetricResult, i: nat)
    requires IsReport(q, r) && i < |r.cells|
    requires forall o :: o in CellOutcomes(q, CellKeys(q)[i]) ==> o.signal == ActionAttempted || o.binding.tier.None?
    ensures r.cells[i].confidence == RollupConfidence(Likely, map[Likely := 1])
  {
    NoTiers(CellOutcomes(q, CellKeys(q)[i]));
  }

  lemma {:induction false} NoTiers(outcomes: seq<OutcomeEvent>)
    requires forall o :: o in outcomes ==> o.signal == ActionAttempted || o.binding.tier.None?
    ensures TierTally(outcomes) == multiset{}
  {
    if outcomes != [] {
      NoTiers(outcomes[..|outcomes| - 1]);
    }
  }

  /** The four classes, read off an outcome's signal and tier. */
  lemma ClassMeans(o: OutcomeEvent)
    ensures ClassOf(o) == Verified <==>
            o.signal == OutcomeConfirmed && (o.binding.tier == Some(Exact) || o.binding.tier == Some(Deterministic))
    ensures ClassOf(o) == Advisory <==>
            o.signal == OutcomeConfirmed && o.binding.tier != Some(Exact) && o.binding.tier != Some(Deterministic)
    ensures ClassOf(o) == Attempted <==> o.signal == ActionAttempted
    ensures ClassOf(o) == Retracted <==> o.signal == OutcomeRetracted
  {
  }

  /** Grouping by one dimension, an event's key is that field of the event or of its run's row. */
  lemma EventKeyMeans(q: Query, e: CostEvent)
    ensures CostKey(q, e, [Provider]) == [(Provider, e.provider)]
    ensures CostKey(q, e, [Model]) == [(Model, e.model)]
    ensures CostKey(q, e, [Tenant]) == [(Tenant, q.tenant)]
    ensures CostKey(q, e, [OutcomeName]) == []
    ensures q.runs.Some? && e.runId in q.runs.value && q.runs.value[e.runId].agentName.Some? ==>
              CostKey(q, e, [AgentName]) == [(AgentName, q.runs.value[e.runId].agentName.value)]
    ensures q.runs.None? || e.runId !in q.runs.value || q.runs.value[e.runId].agentName.None? ==>
              CostKey(q, e, [AgentName]) == [(AgentName, "unknown")]
  {
    OneDimension(q, e, Provider);
    OneDimension(q, e, Model);
    OneDimension(q, e, Tenant);
    OneDimension(q, e, AgentName);
    assert [OutcomeName][..0] == [];
  }

  lemma OneDimension(q: Query, e: CostEvent, d: Dimension)
    requires d != OutcomeName
    ensures CostKey(q, e, [d]) == [(d, CostValue(q, e, d))]
  {
    assert [d][..0] == [];
    assert CostKey(q, e, [d][..0]) == [];
  }

  /** A provider filter tests the provider, a model filter the model, any other filter nothing. */
  lemma FilterMeans(e: CostEvent, d: Dimension, v: string, rest: seq<(Dimension, string)>)
    ensures MatchesFilters(e, [(Provider, v)] + rest) <==> e.provider == v && MatchesFilters(e, rest)
    ensures MatchesFilters(e, [(Model, v)] + rest) <==> e.model == v && MatchesFilters(e, rest)
    ensures d != Provider && d != Model ==> (MatchesFilters(e, [(d, v)] + rest) <==> MatchesFilters(e, rest))
    ensures MatchesFilters(e, [])
  {
    OneMoreFilter(e, (Provider, v), rest);
    OneMoreFilter(e, (Model, v), rest);
    OneMoreFilter(e, (d, v), rest);
  }

  lemma OneMoreFilter(e: CostEvent, f: (Dimension, string), rest: seq<(Dimension, string)>)
    ensures MatchesFilters(e, [f] + rest) <==>
            (f.0 == Provider ==> e.provider == f.1) && (f.0 == Model ==> e.model == f.1) && MatchesFilters(e, rest)
  {
    assert forall g :: g in [f] + rest <==> g == f || g in rest;
  }
}
