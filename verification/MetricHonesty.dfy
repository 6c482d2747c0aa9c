/** Retraction, confidence and denominators: what a report may and may not claim. */
module MetricHonesty {
  import opened Folds
  import opened Confidence
  import opened Records
  import opened Alias
  import opened Metrics
  import opened CostGrouping
  import opened OutcomeColumns

  // ----- the four classes partition a cell -----

  lemma {:induction false} ClassesPartition(q: Query, key: Key, outcomes: seq<OutcomeEvent>)
    ensures CountBy(outcomes, o => InCell(q, key, o) && ClassOf(o) == Verified) +
            CountBy(outcomes, o => InCell(q, key, o) && ClassOf(o) == Advisory) +
            CountBy(outcomes, o => InCell(q, key, o) && ClassOf(o) == Attempted) +
            CountBy(outcomes, o => InCell(q, key, o) && ClassOf(o) == Retracted) ==
            CountBy(outcomes, o => InCell(q, key, o))
  {
    if outcomes != [] {
      ClassesPartition(q, key, outcomes[..|outcomes| - 1]);
    }
  }

  // ----- retraction -----

  /** The query after a confirmed outcome was flipped to retracted. */
  ghost function AfterRetraction(q: Query, i: nat): (r: Query)
    requires i < |q.outcomes|
  {
    q.(outcomes := q.outcomes[i := q.outcomes[i].(signal := OutcomeRetracted)])
  }

  lemma {:induction false} OutcomeKeyIgnoresSignal(o: OutcomeEvent, groupBy: seq<Dimension>)
    ensures OutcomeKey(o.(signal := OutcomeRetracted), groupBy) == OutcomeKey(o, groupBy)
  {
    if groupBy != [] {
      OutcomeKeyIgnoresSignal(o, groupBy[..|groupBy| - 1]);
    }
  }

  lemma CellKeysSurviveRetraction(q: Query, i: nat)
    requires i < |q.outcomes|
    ensures CellKeys(AfterRetraction(q, i)) == CellKeys(q)
  {
    var r := AfterRetraction(q, i);
    OutcomeKeyIgnoresSignal(q.outcomes[i], q.plan.groupBy);
    forall j | 0 <= j < |RecordKeys(q)|
      ensures RecordKeys(r)[j] == RecordKeys(q)[j]
    {
      if j < |q.events| {
        CostKeyOfAnyPlan(q, r, q.events[j], q.plan.groupBy);
      }
    }
    assert RecordKeys(r) == RecordKeys(q);
  }

  /** In each cell holding the outcome, one verified outcome becomes one retracted outcome. */
  lemma RetractionMovesOne(q: Query, i: nat, key: Key, c: OutcomeClass)
    requires i < |q.outcomes| && ClassOf(q.outcomes[i]) == Verified
    ensures var held := if InCell(q, key, q.outcomes[i]) then 1 else 0;
            ClassCount(AfterRetraction(q, i), key, c) ==
            ClassCount(q, key, c) - (if c == Verified then held else 0) + (if c == Retracted then held else 0)
  {
    var r, o := AfterRetraction(q, i), q.outcomes[i];
    OutcomeKeyIgnoresSignal(o, q.plan.groupBy);
    CountByCongruent(r.outcomes, o => InCell(r, key, o) && ClassOf(o) == c, o => InCell(q, key, o) && ClassOf(o) == c);
    CountByUpdate(q.outcomes, i, o.(signal := OutcomeRetracted), o => InCell(q, key, o) && ClassOf(o) == c);
  }

  /** Without a billing-grade outcome a cell has no producing run. */
  lemma NoVerifiedNoProducer(q: Query, key: Key)
    requires ClassCount(q, key, Verified) == 0
    ensures !HasProducer(q, key)
  {
    CountByPositive(q.outcomes, o => InCell(q, key, o) && ClassOf(o) == Verified);
  }

  /**
   * The money side of a retraction, by outcome name: once the last billing-grade outcome of a
   * name is retracted its producers are gone, so the cell reports the whole window over nothing.
   */
  lemma LastRetractionReportsTheWindow(q: Query, i: nat, key: Key)
    requires ByOutcomeName(q) && i < |q.outcomes| && ClassOf(q.outcomes[i]) == Verified
    requires InCell(q, key, q.outcomes[i]) && ClassCount(q, key, Verified) == 1
    ensures
      var r := AfterRetraction(q, i);
      && !HasProducer(r, key) && NumeratorOf(r, key) == WindowTotal(r)
      && DenominatorOf(r, key) == 0 && CellOf(r, key).value == None
  {
    var r := AfterRetraction(q, i);
    RetractionMovesOne(q, i, key, Verified);
    NoVerifiedNoProducer(r, key);
    FallbackCell(r, key);
  }

  ghost function TierCount(q: Query, key: Key, outcomes: seq<OutcomeEvent>, t: BindingTier): (n: nat) {
    CountBy(outcomes, o => InCell(q, key, o) && t in TierOf(o))
  }

  lemma {:induction false} TallyIsCount(outcomes: seq<OutcomeEvent>, t: BindingTier)
    ensures TierTally(outcomes)[t] == CountBy(outcomes, o => t in TierOf(o))
  {
    if outcomes != [] {
      TallyIsCount(outcomes[..|outcomes| - 1], t);
    }
  }

  lemma CellTally(q: Query, key: Key, t: BindingTier)
    ensures TierTally(CellOutcomes(q, key))[t] == TierCount(q, key, q.outcomes, t)
  {
    TallyIsCount(CellOutcomes(q, key), t);
    CountByFilter(q.outcomes, o => InCell(q, key, o), o => t in TierOf(o), o => InCell(q, key, o) && t in TierOf(o));
  }

  /** The tier distribution still counts a retracted outcome: nothing is silently dropped. */
  lemma RetractionKeepsTiers(q: Query, i: nat, key: Key)
    requires i < |q.outcomes| && ClassOf(q.outcomes[i]) == Verified
    ensures TierTally(CellOutcomes(AfterRetraction(q, i), key)) == TierTally(CellOutcomes(q, key))
  {
    forall t
      ensures TierTally(CellOutcomes(AfterRetraction(q, i), key))[t] == TierTally(CellOutcomes(q, key))[t]
    {
      RetractionKeepsTier(q, i, key, t);
    }
  }

  lemma RetractionKeepsTier(q: Query, i: nat, key: Key, t: BindingTier)
    requires i < |q.outcomes| && ClassOf(q.outcomes[i]) == Verified
    ensures TierTally(CellOutcomes(AfterRetraction(q, i), key))[t] == TierTally(CellOutcomes(q, key))[t]
  {
    var r, o := AfterRetraction(q, i), q.outcomes[i];
    CellTally(r, key, t);
    CellTally(q, key, t);
    OutcomeKeyIgnoresSignal(o, q.plan.groupBy);
    CountByCongruent(r.outcomes, o => InCell(r, key, o) && t in TierOf(o), o => InCell(q, key, o) && t in TierOf(o));
    CountByUpdate(q.outcomes, i, o.(signal := OutcomeRetracted), o => InCell(q, key, o) && t in TierOf(o));
  }

  /** Every outcome is in some group, whatever the grouping. */
  lemma EveryOutcomeHasACell(q: Query, o: OutcomeEvent)
    requires o in q.outcomes
    ensures exists k :: k in CellKeys(q) && InCell(q, k, o)
  {
    CellKeyElements(q);
    var own := OutcomeKey(o, q.plan.groupBy);
    if own == [] {
      assert CellKeys(q)[0] in CellKeys(q) && InCell(q, CellKeys(q)[0], o);
    } else {
      OutcomeMatchesItself(o, q.plan.groupBy);
      assert own in CellKeys(q) && InCell(q, own, o);
    }
  }

  lemma OutcomeMatchesItself(o: OutcomeEvent, groupBy: seq<Dimension>)
    ensures MatchesKey(OutcomeKey(o, groupBy), OutcomeKey(o, groupBy))
  {
    OutcomeKeyShape(o, groupBy);
    LookupInShape(OutcomeKey(o, groupBy), o.name);
  }

  lemma {:induction false} OutcomeKeyShape(o: OutcomeEvent, groupBy: seq<Dimension>)
    ensures forall p :: p in OutcomeKey(o, groupBy) ==> p == (OutcomeName, o.name)
  {
    if groupBy != [] {
      OutcomeKeyShape(o, groupBy[..|groupBy| - 1]);
    }
  }

  lemma LookupInShape(k: Key, name: string)
    requires forall p :: p in k ==> p == (OutcomeName, name)
    ensures k != [] ==> Lookup(k, OutcomeName) == Some(name)
  {
    if k != [] {
      assert k[|k| - 1] in k;
    }
  }

  lemma RetractedInCell(q: Query, k: Key)
    ensures ClassCount(q, k, Retracted) > 0 <==> exists o :: o in q.outcomes && InCell(q, k, o) && ClassOf(o) == Retracted
  {
    CountByPositive(q.outcomes, o => InCell(q, k, o) && ClassOf(o) == Retracted);
  }

  lemma SomeCellHoldsRetracted(q: Query)
    ensures (exists k :: k in CellKeys(q) && ClassCount(q, k, Retracted) > 0) <==>
            exists o :: o in q.outcomes && o.signal == OutcomeRetracted
  {
    if k :| k in CellKeys(q) && ClassCount(q, k, Retracted) > 0 {
      RetractedInCell(q, k);
    }
    if o :| o in q.outcomes && o.signal == OutcomeRetracted {
      EveryOutcomeHasACell(q, o);
      var k :| k in CellKeys(q) && InCell(q, k, o);
      RetractedInCell(q, k);
    }
  }

  /** A report asks to be re-emitted exactly when some outcome was retracted, whatever the grouping. */
  lemma ReemitIffRetracted(q: Query, r: MetricResult)
    requires IsReport(q, r)
    ensures r.requiresReemit <==> exists o :: o in q.outcomes && o.signal == OutcomeRetracted
  {
    SomeCellHoldsRetracted(q);
    if r.requiresReemit {
      var i :| 0 <= i < |r.cells| && r.cells[i].retractedExcluded > 0;
      assert CellKeys(q)[i] in CellKeys(q);
    }
    if k :| k in CellKeys(q) && ClassCount(q, k, Retracted) > 0 {
      var i :| 0 <= i < |CellKeys(q)| && CellKeys(q)[i] == k;
      assert r.cells[i].retractedExcluded > 0;
    }
  }

  // ----- confidence never rises with aggregation -----

  lemma {:induction false} TallyConcat(a: seq<OutcomeEvent>, b: seq<OutcomeEvent>)
    ensures TierTally(a + b) == TierTally(a) + TierTally(b)
  {
    if b == [] {
      assert a + b == a;
    } else {
      var front, last := b[..|b| - 1], b[|b| - 1];
      assert a + b == (a + front) + [last];
      assert ((a + front) + [last])[..|a + front|] == a + front;
      TallyConcat(a, front);
    }
  }

  /** Merging two cells with bound outcomes adds the distributions and keeps the weaker headline. */
  lemma MergedCells(a: seq<OutcomeEvent>, b: seq<OutcomeEvent>)
    requires TierTally(a) != multiset{} && TierTally(b) != multiset{}
    ensures var c, d, e := TierConfidence(TierTally(a)), TierConfidence(TierTally(b)), TierConfidence(TierTally(a + b));
            && e.minimumTier == Weaker(c.minimumTier, d.minimumTier)
            && (forall t :: CountOf(e, t) == CountOf(c, t) + CountOf(d, t))
            && Valid(e)
  {
    TallyConcat(a, b);
    assert |TierTally(a)| > 0 && |TierTally(b)| > 0 && |TierTally(a + b)| > 0;
    ConfidenceReports(TierTally(a));
    ConfidenceReports(TierTally(b));
    ConfidenceReports(TierTally(a) + TierTally(b));
    MergeReports(ConfidenceOf(TierTally(a)), ConfidenceOf(TierTally(b)), ConfidenceOf(TierTally(a + b)),
                 TierTally(a), TierTally(b));
  }

  /** A report over more outcomes is never headlined above any of its bound cells. */
  lemma HeadlineNeverRaised(q: Query, key: Key)
    requires TierTally(CellOutcomes(q, key)) != multiset{}
    ensures Trust(TierConfidence(TierTally(q.outcomes)).minimumTier) <=
            Trust(TierConfidence(TierTally(CellOutcomes(q, key))).minimumTier)
  {
    var part, all := TierTally(CellOutcomes(q, key)), TierTally(q.outcomes);
    assert |part| > 0;
    ConfidenceReports(part);
    var t := ConfidenceOf(part).minimumTier;
    CellTally(q, key, t);
    TallyIsCount(q.outcomes, t);
    CountByAtMost(q.outcomes, o => InCell(q, key, o) && t in TierOf(o), o => t in TierOf(o));
    assert all[t] > 0;
    assert |all| > 0;
    ConfidenceReports(all);
  }

  lemma {:induction false} CountByAtMost<T>(s: seq<T>, p: T -> bool, q: T -> bool)
    requires forall x :: x in s && p(x) ==> q(x)
    ensures CountBy(s, p) <= CountBy(s, q)
  {
    if s != [] {
      CountByAtMost(s[..|s| - 1], p, q);
    }
  }

  // ----- denominators add up -----

  ghost function HeldCount(q: Query, key: Key, c: OutcomeClass, o: OutcomeEvent): (n: real) {
    if InCell(q, key, o) && ClassOf(o) == c then 1.0 else 0.0
  }

  lemma ClassCountIsSum(q: Query, key: Key, c: OutcomeClass)
    ensures ClassCount(q, key, c) as real == SumBy(q.outcomes, o => HeldCount(q, key, c, o))
  {
    SumByIndicator(q.outcomes, o => InCell(q, key, o) && ClassOf(o) == c, 1.0, o => HeldCount(q, key, c, o));
    TimesNext(ClassCount(q, key, c), 1.0);
  }

  /** Grouped by outcome name each outcome is in exactly one cell. */
  lemma HeldByOneName(q: Query, c: OutcomeClass, o: OutcomeEvent)
    requires q.plan.groupBy == [OutcomeName] && o in q.outcomes
    ensures SumBy(CellKeys(q), k => HeldCount(q, k, c, o)) == if ClassOf(o) == c then 1.0 else 0.0
  {
    CellKeyElements(q);
    CellIsName(q, o.name, o);
    forall k | k in CellKeys(q)
      ensures HeldCount(q, k, c, o) == if k == NameKey(o.name) && ClassOf(o) == c then 1.0 else 0.0
    {
      NameCells(q, k);
      var n :| n in q.outcomes && k == NameKey(n.name);
      CellIsName(q, n.name, o);
      assert NameKey(n.name)[0].1 == n.name && NameKey(o.name)[0].1 == o.name;
    }
    SumByPoint(CellKeys(q), k => HeldCount(q, k, c, o), NameKey(o.name));
  }

  /** The by-name counts of each class add up to the count over all outcomes. */
  lemma NamedCountsAddUp(q: Query, c: OutcomeClass)
    requires q.plan.groupBy == [OutcomeName]
    ensures SumBy(CellKeys(q), k => ClassCount(q, k, c) as real) == CountBy(q.outcomes, o => ClassOf(o) == c) as real
  {
    forall k | k in CellKeys(q)
      ensures ClassCount(q, k, c) as real == SumBy(q.outcomes, o => HeldCount(q, k, c, o))
    {
      ClassCountIsSum(q, k, c);
    }
    var one := o => if ClassOf(o) == c then 1.0 else 0.0;
    forall o | o in q.outcomes
      ensures one(o) == SumBy(CellKeys(q), k => HeldCount(q, k, c, o))
    {
      HeldByOneName(q, c, o);
    }
    SumBySwap(CellKeys(q), q.outcomes, k => o => HeldCount(q, k, c, o), o => k => HeldCount(q, k, c, o),
              k => ClassCount(q, k, c) as real, one);
    SumByIndicator(q.outcomes, o => ClassOf(o) == c, 1.0, one);
    TimesNext(CountBy(q.outcomes, o => ClassOf(o) == c), 1.0);
  }

  /** More aliases never take a run away from an outcome's entities. */
  lemma EntityRunsGrow(keys: set<EntityKey>, runs: Option<map<RunId, Run>>,
                       aliases: seq<EntityAlias>, more: seq<EntityAlias>)
    ensures EntityRuns(keys, runs, aliases) <= EntityRuns(keys, runs, aliases + more)
  {
    forall r | r in EntityRuns(keys, runs, aliases) ensures r in EntityRuns(keys, runs, aliases + more) {
      var run := runs.value[r];
      var k, e :| k in keys && e in run.entityKeys && SameEntity(aliases, k, e);
      SameEntityMonotone(aliases, more, k, e);
    }
  }

  // ----- filters -----

  /** The filter rule as documented: a field other than provider and model never matches. */
  predicate DocumentedMatch(e: CostEvent, filters: seq<(Dimension, string)>) {
    MatchesFilters(e, filters) && forall f :: f in filters ==> f.0 == Provider || f.0 == Model
  }

  /**
   * The code selects the documented events exactly when every filter names provider or model, or
   * when no event passes those filters anyway.
   */
  lemma FiltersAsDocumentedIff(events: seq<CostEvent>, filters: seq<(Dimension, string)>)
    ensures FilterBy(events, e => DocumentedMatch(e, filters)) == FilterBy(events, e => MatchesFilters(e, filters)) <==>
            || (forall f :: f in filters ==> f.0 == Provider || f.0 == Model)
            || (forall e :: e in events ==> !MatchesFilters(e, filters))
  {
    var documented, actual := FilterBy(events, e => DocumentedMatch(e, filters)), FilterBy(events, e => MatchesFilters(e, filters));
    FilterByCongruentOrNone(events, e => DocumentedMatch(e, filters), e => MatchesFilters(e, filters));
    if documented == actual {
      SelectedElements(events, filters);
    }
  }

  lemma FilterByCongruentOrNone<T>(s: seq<T>, p: T -> bool, q: T -> bool)
    ensures (forall x :: x in s ==> p(x) == q(x)) ==> FilterBy(s, p) == FilterBy(s, q)
  {
    if forall x :: x in s ==> p(x) == q(x) {
      FilterByCongruent(s, p, q);
    }
  }

  lemma SelectedElements(events: seq<CostEvent>, filters: seq<(Dimension, string)>)
    ensures forall e :: e in FilterBy(events, e => DocumentedMatch(e, filters)) <==>
                        e in events && DocumentedMatch(e, filters)
    ensures forall e :: e in FilterBy(events, e => MatchesFilters(e, filters)) <==>
                        e in events && MatchesFilters(e, filters)
  {
    FilterByElements(events, e => DocumentedMatch(e, filters));
    FilterByElements(events, e => MatchesFilters(e, filters));
    forall e
      ensures e in FilterBy(events, e => DocumentedMatch(e, filters)) <==> e in events && DocumentedMatch(e, filters)
      ensures e in FilterBy(events, e => MatchesFilters(e, filters)) <==> e in events && MatchesFilters(e, filters)
    {
      assert ((e: CostEvent) => DocumentedMatch(e, filters))(e) == DocumentedMatch(e, filters);
      assert ((e: CostEvent) => MatchesFilters(e, filters))(e) == MatchesFilters(e, filters);
    }
  }

  /** A filter on the agent is silently ignored: it passes every event. */
  lemma AgentFilterIsIgnored(e: CostEvent, agent: string)
    ensures MatchesFilters(e, [(AgentName, agent)]) && !DocumentedMatch(e, [(AgentName, agent)])
  {
    var filters := [(AgentName, agent)];
    assert filters[0] in filters;
  }
}
