/** A report's cells do not depend on the order its records are listed in. */
module ReportOrder {
  import opened Folds
  import opened Confidence
  import opened Records
  import opened Metrics
  import opened CostGrouping
  import opened MetricHonesty

  /** Every billing-grade outcome names its run, as the binding cascade guarantees for what it stores. */
  predicate BoundToRuns(outcomes: seq<OutcomeEvent>) {
    forall o :: o in outcomes && ClassOf(o) == Verified ==> o.binding.runId.Some?
  }

  /** A plan grouped by agent reads the same agent for the run, a plan not so grouped reads none. */
  predicate SameAgent(q: Query, p: Query, r: RunId) {
    AgentName in q.plan.groupBy ==> AgentOf(q.runs, r) == AgentOf(p.runs, r)
  }

  /** Outcomes resolve to the same runs: by naming them, or through one run table and one alias list. */
  ghost predicate SameResolution(q: Query, p: Query) {
    BoundToRuns(q.outcomes) || (q.runs == p.runs && q.aliases == p.aliases)
  }

  /** The same plan over permutations of the same records; run tables matter for agents and entities only. */
  ghost predicate SameRecords(q: Query, p: Query) {
    && q.plan == p.plan && q.tenant == p.tenant
    && multiset(q.events) == multiset(p.events) && multiset(q.outcomes) == multiset(p.outcomes)
    && (forall e :: e in q.events ==> SameAgent(q, p, e.runId)) && SameResolution(q, p)
  }

  lemma {:induction false} SameCostKey(q: Query, p: Query, e: CostEvent, groupBy: seq<Dimension>)
    requires q.tenant == p.tenant && (AgentName in groupBy ==> AgentOf(q.runs, e.runId) == AgentOf(p.runs, e.runId))
    ensures CostKey(q, e, groupBy) == CostKey(p, e, groupBy)
  {
    if groupBy != [] {
      SameCostKey(q, p, e, groupBy[..|groupBy| - 1]);
    }
  }

  lemma SameElements(q: Query, p: Query)
    requires SameRecords(q, p)
    ensures forall e :: e in q.events <==> e in p.events
    ensures forall o :: o in q.outcomes <==> o in p.outcomes
  {
    PermutationElements(q.events, p.events);
    PermutationElements(q.outcomes, p.outcomes);
  }

  lemma SameGroups(q: Query, p: Query, k: Key)
    requires SameRecords(q, p) && k in CellKeys(q)
    ensures k in CellKeys(p)
  {
    SameElements(q, p);
    CellKeyElements(q);
    CellKeyElements(p);
    forall e | e in q.events
      ensures CostKey(q, e, q.plan.groupBy) == CostKey(p, e, q.plan.groupBy)
    {
      SameCostKey(q, p, e, q.plan.groupBy);
    }
    var first := CellKeys(p)[0];
    assert first in CellKeys(p);
    assert first != [] ==> IsRecordKey(q, first) && first in CellKeys(q);
    assert k != [] ==> IsRecordKey(p, k);
  }

  lemma SameProducers(q: Query, p: Query, r: RunId)
    requires SameRecords(q, p)
    ensures TimesProduced(q, r) == TimesProduced(p, r)
    ensures Overlapping(q, r) == Overlapping(p, r) && ShareOf(q, r) == ShareOf(p, r)
    ensures forall k :: Produces(q, k, r) <==> Produces(p, k, r)
  {
    SameElements(q, p);
    assert forall o :: o in q.outcomes ==> (CountsFor(q, o, r) <==> CountsFor(p, o, r));
    CountByCongruent(p.outcomes, o => CountsFor(p, o, r), o => CountsFor(q, o, r));
    CountByPermutation(q.outcomes, p.outcomes, o => CountsFor(q, o, r));
    forall k
      ensures Produces(q, k, r) <==> Produces(p, k, r)
    {
      assert forall o :: InCell(q, k, o) == InCell(p, k, o);
    }
  }

  lemma SameNarrowing(q: Query, p: Query, k: Key, e: CostEvent)
    requires SameRecords(q, p) && e in q.events
    ensures EventInCell(q, k, e) == EventInCell(p, k, e)
    ensures InNumerator(q, k, e) == InNumerator(p, k, e)
    ensures Overlapping(q, e.runId) == Overlapping(p, e.runId)
  {
    SameCostKey(q, p, e, q.plan.groupBy);
    SameHasProducer(q, p, k);
    SameProducers(q, p, e.runId);
  }

  lemma SameCharge(q: Query, p: Query, k: Key, e: CostEvent)
    requires SameRecords(q, p) && e in q.events
    ensures Charge(q, k, e) == Charge(p, k, e)
  {
    SameNarrowing(q, p, k, e);
    SameProducers(q, p, e.runId);
    SameSplit(q, p, e);
  }

  lemma SameSplit(q: Query, p: Query, e: CostEvent)
    requires ShareOf(q, e.runId) == ShareOf(p, e.runId)
    ensures SplitCost(q, e) == SplitCost(p, e)
  {
  }

  lemma SameHasProducer(q: Query, p: Query, k: Key)
    requires SameRecords(q, p)
    ensures HasProducer(q, k) <==> HasProducer(p, k)
  {
    forall r
      ensures Produces(q, k, r) <==> Produces(p, k, r)
    {
      SameProducers(q, p, r);
    }
  }

  lemma SameNumerator(q: Query, p: Query, k: Key)
    requires SameRecords(q, p)
    ensures NumeratorOf(q, k) == NumeratorOf(p, k)
  {
    SameElements(q, p);
    forall e | e in q.events
      ensures InNumerator(q, k, e) == InNumerator(p, k, e) && Charge(q, k, e) == Charge(p, k, e)
    {
      SameNarrowing(q, p, k, e);
      SameCharge(q, p, k, e);
    }
    match q.plan.numerator
    case TotalCostUsd =>
      SumByCongruent(p.events, e => Charge(p, k, e), e => Charge(q, k, e));
      SumByPermutation(q.events, p.events, e => Charge(q, k, e));
    case AttemptCount =>
      CountByCongruent(p.events, e => InNumerator(p, k, e), e => InNumerator(q, k, e));
      CountByPermutation(q.events, p.events, e => InNumerator(q, k, e));
    case _ =>
      SameConfirmed(q, p, k);
  }

  lemma SameConfirmed(q: Query, p: Query, k: Key)
    requires SameRecords(q, p)
    ensures ConfirmedCount(q, k) == ConfirmedCount(p, k)
  {
    CountByCongruent(p.outcomes, o => InCell(p, k, o) && o.signal == OutcomeConfirmed,
                     o => InCell(q, k, o) && o.signal == OutcomeConfirmed);
    CountByPermutation(q.outcomes, p.outcomes, o => InCell(q, k, o) && o.signal == OutcomeConfirmed);
  }

  lemma SameClassCount(q: Query, p: Query, k: Key, c: OutcomeClass)
    requires SameRecords(q, p)
    ensures ClassCount(q, k, c) == ClassCount(p, k, c)
  {
    CountByCongruent(p.outcomes, o => InCell(p, k, o) && ClassOf(o) == c, o => InCell(q, k, o) && ClassOf(o) == c);
    CountByPermutation(q.outcomes, p.outcomes, o => InCell(q, k, o) && ClassOf(o) == c);
  }

  lemma SameDenominator(q: Query, p: Query, k: Key)
    requires SameRecords(q, p)
    ensures DenominatorOf(q, k) == DenominatorOf(p, k)
  {
    SameClassCount(q, p, k, Verified);
    SameConfirmed(q, p, k);
    SameElements(q, p);
    forall e | e in q.events
      ensures EventInCell(q, k, e) == EventInCell(p, k, e)
    {
      SameNarrowing(q, p, k, e);
    }
    CountByCongruent(p.events, e => EventInCell(p, k, e), e => EventInCell(q, k, e));
    CountByPermutation(q.events, p.events, e => EventInCell(q, k, e));
  }

  lemma SameTiers(q: Query, p: Query, k: Key)
    requires SameRecords(q, p)
    ensures TierTally(CellOutcomes(q, k)) == TierTally(CellOutcomes(p, k))
  {
    forall t
      ensures TierTally(CellOutcomes(q, k))[t] == TierTally(CellOutcomes(p, k))[t]
    {
      CellTally(q, k, t);
      CellTally(p, k, t);
      CountByCongruent(p.outcomes, o => InCell(p, k, o) && t in TierOf(o), o => InCell(q, k, o) && t in TierOf(o));
      CountByPermutation(q.outcomes, p.outcomes, o => InCell(q, k, o) && t in TierOf(o));
    }
  }

  lemma SameEvidence(q: Query, p: Query, k: Key)
    requires SameRecords(q, p)
    ensures WeakestEvidence(CellOutcomes(q, k)) == WeakestEvidence(CellOutcomes(p, k))
  {
    SameElements(q, p);
    CellOutcomeElements(q, k);
    CellOutcomeElements(p, k);
    var a, b := CellOutcomes(q, k), CellOutcomes(p, k);
    forall o
      ensures o in a <==> o in b
    {
      assert InCell(q, k, o) == InCell(p, k, o);
    }
    assert a == [] <==> b == [] by {
      if a != [] {
        assert a[0] in b;
      }
      if b != [] {
        assert b[0] in a;
      }
    }
  }

  lemma CellOutcomeElements(q: Query, k: Key)
    ensures forall o :: o in CellOutcomes(q, k) <==> o in q.outcomes && InCell(q, k, o)
  {
    FilterByElements(q.outcomes, o => InCell(q, k, o));
    forall o
      ensures o in CellOutcomes(q, k) <==> o in q.outcomes && InCell(q, k, o)
    {
      assert ((o: OutcomeEvent) => InCell(q, k, o))(o) == InCell(q, k, o);
    }
  }

  lemma SameShared(q: Query, p: Query, k: Key)
    requires SameRecords(q, p)
    ensures CountBy(q.events, e => InNumerator(q, k, e) && Overlapping(q, e.runId)) ==
            CountBy(p.events, e => InNumerator(p, k, e) && Overlapping(p, e.runId))
  {
    SameElements(q, p);
    forall e | e in q.events
      ensures InNumerator(q, k, e) == InNumerator(p, k, e) && Overlapping(q, e.runId) == Overlapping(p, e.runId)
    {
      SameNarrowing(q, p, k, e);
    }
    CountByCongruent(p.events, e => InNumerator(p, k, e) && Overlapping(p, e.runId),
                     e => InNumerator(q, k, e) && Overlapping(q, e.runId));
    CountByPermutation(q.events, p.events, e => InNumerator(q, k, e) && Overlapping(q, e.runId));
  }

  lemma SameCell(q: Query, p: Query, k: Key)
    requires SameRecords(q, p)
    ensures CellOf(q, k) == CellOf(p, k)
  {
    SameNumerator(q, p, k);
    SameDenominator(q, p, k);
    SameTiers(q, p, k);
    SameClassCount(q, p, k, Advisory);
    SameClassCount(q, p, k, Retracted);
    SameShared(q, p, k);
    SameEvidence(q, p, k);
  }

  lemma CellsCarryOver(q: Query, p: Query, r: MetricResult, s: MetricResult)
    requires SameRecords(q, p) && IsReport(q, r) && IsReport(p, s)
    ensures forall c :: c in r.cells ==> c in s.cells
  {
    forall c | c in r.cells
      ensures c in s.cells
    {
      var i :| 0 <= i < |r.cells| && r.cells[i] == c;
      var k := CellKeys(q)[i];
      SameGroups(q, p, k);
      SameCell(q, p, k);
      var j :| 0 <= j < |CellKeys(p)| && CellKeys(p)[j] == k;
      assert s.cells[j] == c;
    }
  }

  // ----- the time of an event is never read -----

  /** The event without its time. */
  function Timeless(e: CostEvent): (f: CostEvent) {
    e.(occurredAt := 0)
  }

  ghost function TimelessAll(events: seq<CostEvent>): (r: seq<CostEvent>)
    ensures |r| == |events| && forall i :: 0 <= i < |r| ==> r[i] == Timeless(events[i])
  {
    seq(|events|, i requires 0 <= i < |events| => Timeless(events[i]))
  }

  ghost function Erased(q: Query): (r: Query) {
    q.(events := TimelessAll(q.events))
  }

  lemma {:induction false} ErasedCostKey(q: Query, e: CostEvent, groupBy: seq<Dimension>)
    ensures CostKey(Erased(q), Timeless(e), groupBy) == CostKey(q, e, groupBy)
  {
    if groupBy != [] {
      ErasedCostKey(q, e, groupBy[..|groupBy| - 1]);
    }
  }

  lemma ErasedGroups(q: Query)
    ensures CellKeys(Erased(q)) == CellKeys(q)
  {
    var r := Erased(q);
    forall i | 0 <= i < |RecordKeys(q)|
      ensures RecordKeys(r)[i] == RecordKeys(q)[i]
    {
      if i < |q.events| {
        ErasedCostKey(q, q.events[i], q.plan.groupBy);
      }
    }
    assert RecordKeys(r) == RecordKeys(q);
  }

  lemma ErasedEvent(q: Query, k: Key, e: CostEvent)
    ensures EventInCell(Erased(q), k, Timeless(e)) == EventInCell(q, k, e)
    ensures InNumerator(Erased(q), k, Timeless(e)) == InNumerator(q, k, e)
  {
    ErasedCostKey(q, e, q.plan.groupBy);
    ErasedProducers(q, k);
  }

  lemma ErasedCharge(q: Query, k: Key, e: CostEvent)
    ensures Overlapping(Erased(q), e.runId) == Overlapping(q, e.runId)
    ensures Charge(Erased(q), k, Timeless(e)) == Charge(q, k, e)
  {
    ErasedEvent(q, k, e);
    ErasedShares(q, e.runId);
    SameSplit(q, Erased(q), e);
  }

  lemma ErasedProducers(q: Query, k: Key)
    ensures forall r :: Produces(Erased(q), k, r) <==> Produces(q, k, r)
    ensures HasProducer(Erased(q), k) <==> HasProducer(q, k)
  {
    forall r ensures Produces(Erased(q), k, r) <==> Produces(q, k, r) {
      assert forall o :: CountsFor(Erased(q), o, r) == CountsFor(q, o, r);
      assert forall o :: InCell(Erased(q), k, o) == InCell(q, k, o);
    }
  }

  lemma ErasedShares(q: Query, r: RunId)
    ensures Overlapping(Erased(q), r) == Overlapping(q, r) && ShareOf(Erased(q), r) == ShareOf(q, r)
  {
    CountByCongruent(q.outcomes, o => CountsFor(Erased(q), o, r), o => CountsFor(q, o, r));
  }

  lemma ErasedCell(q: Query, k: Key)
    ensures CellOf(Erased(q), k) == CellOf(q, k)
  {
    var r := Erased(q);
    forall i | 0 <= i < |q.events|
      ensures EventInCell(r, k, r.events[i]) == EventInCell(q, k, q.events[i])
      ensures InNumerator(r, k, r.events[i]) == InNumerator(q, k, q.events[i])
      ensures Overlapping(r, r.events[i].runId) == Overlapping(q, q.events[i].runId)
    {
      ErasedEvent(q, k, q.events[i]);
      ErasedCharge(q, k, q.events[i]);
    }
    ErasedNumerator(q, k);
    ErasedOutcomes(q, k);
    CountByPairwise(r.events, q.events, e => EventInCell(r, k, e), e => EventInCell(q, k, e));
    CountByPairwise(r.events, q.events, e => InNumerator(r, k, e) && Overlapping(r, e.runId),
                    e => InNumerator(q, k, e) && Overlapping(q, e.runId));
  }

  lemma ErasedNumerator(q: Query, k: Key)
    ensures NumeratorOf(Erased(q), k) == NumeratorOf(q, k)
  {
    var r := Erased(q);
    forall i | 0 <= i < |q.events|
      ensures InNumerator(r, k, r.events[i]) == InNumerator(q, k, q.events[i])
      ensures Charge(r, k, r.events[i]) == Charge(q, k, q.events[i])
    {
      ErasedEvent(q, k, q.events[i]);
      ErasedCharge(q, k, q.events[i]);
    }
    SumByPairwise(r.events, q.events, e => Charge(r, k, e), e => Charge(q, k, e));
    CountByPairwise(r.events, q.events, e => InNumerator(r, k, e), e => InNumerator(q, k, e));
    ErasedOutcomes(q, k);
  }

  lemma ErasedOutcomes(q: Query, k: Key)
    ensures ConfirmedCount(Erased(q), k) == ConfirmedCount(q, k)
    ensures forall c :: ClassCount(Erased(q), k, c) == ClassCount(q, k, c)
    ensures CellOutcomes(Erased(q), k) == CellOutcomes(q, k)
  {
    var r := Erased(q);
    CountByCongruent(q.outcomes, o => InCell(r, k, o) && o.signal == OutcomeConfirmed,
                     o => InCell(q, k, o) && o.signal == OutcomeConfirmed);
    forall c ensures ClassCount(r, k, c) == ClassCount(q, k, c) {
      CountByCongruent(q.outcomes, o => InCell(r, k, o) && ClassOf(o) == c, o => InCell(q, k, o) && ClassOf(o) == c);
    }
    FilterByCongruent(q.outcomes, o => InCell(r, k, o), o => InCell(q, k, o));
  }

  lemma ErasedReport(q: Query, r: MetricResult)
    requires IsReport(q, r)
    ensures IsReport(Erased(q), r)
  {
    ErasedGroups(q);
    forall i | 0 <= i < |r.cells| ensures r.cells[i] == CellOf(Erased(q), CellKeys(Erased(q))[i]) {
      ErasedCell(q, CellKeys(q)[i]);
    }
  }

  /**
   * A report has the same cells whatever order its records are listed in and whatever time its
   * events carry; run rows are read for agents, and for outcomes that name only an entity.
   */
  lemma ReportsAgree(q: Query, p: Query, r: MetricResult, s: MetricResult)
    requires SameRecords(Erased(q), Erased(p)) && IsReport(q, r) && IsReport(p, s)
    ensures forall c :: c in r.cells <==> c in s.cells
  {
    ErasedReport(q, r);
    ErasedReport(p, s);
    SameElements(Erased(q), Erased(p));
    CellsCarryOver(Erased(q), Erased(p), r, s);
    CellsCarryOver(Erased(p), Erased(q), s, r);
  }
}
