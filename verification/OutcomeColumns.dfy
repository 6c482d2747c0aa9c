/** Cost per outcome grouped by outcome name: what the columns add up to. */
module OutcomeColumns {
  import opened Folds
  import opened Confidence
  import opened Records
  import opened Metrics
  import opened CostGrouping

  /** A cost-per-outcome query grouped by outcome name alone. */
  predicate ByOutcomeName(q: Query) {
    CostPerOutcome(q.plan) && q.plan.groupBy == [OutcomeName]
  }

  function NameKey(name: string): (k: Key) {
    [(OutcomeName, name)]
  }

  /** The names of the billing-grade outcomes of a run. */
  ghost function NamesIn(q: Query, outcomes: seq<OutcomeEvent>, r: RunId): (names: set<string>) {
    set o | o in outcomes && CountsFor(q, o, r) :: o.name
  }

  ghost function NamesOf(q: Query, r: RunId): (names: set<string>) {
    NamesIn(q, q.outcomes, r)
  }

  /** No two billing-grade outcomes of the run share a name. */
  ghost predicate DistinctlyNamed(q: Query, outcomes: seq<OutcomeEvent>, r: RunId) {
    forall i, j :: 0 <= i < j < |outcomes| && CountsFor(q, outcomes[i], r) && CountsFor(q, outcomes[j], r) ==>
                     outcomes[i].name != outcomes[j].name
  }

  /** The fraction of a run's cost the columns carry: distinct names over billing-grade outcomes. */
  ghost function CarriedFraction(q: Query, r: RunId): (f: real) {
    if TimesProduced(q, r) == 0 then 0.0 else |NamesOf(q, r)| as real / TimesProduced(q, r) as real
  }

  lemma NamesPush(q: Query, front: seq<OutcomeEvent>, last: OutcomeEvent, r: RunId)
    ensures TimesIn(q, front + [last], r) == TimesIn(q, front, r) + (if CountsFor(q, last, r) then 1 else 0)
    ensures NamesIn(q, front + [last], r) ==
            NamesIn(q, front, r) + (if CountsFor(q, last, r) then {last.name} else {})
  {
    CountByPush(front, last, o => CountsFor(q, o, r));
  }

  lemma DistinctPush(q: Query, front: seq<OutcomeEvent>, last: OutcomeEvent, r: RunId)
    ensures DistinctlyNamed(q, front + [last], r) <==>
            DistinctlyNamed(q, front, r) && (CountsFor(q, last, r) ==> last.name !in NamesIn(q, front, r))
  {
    var all := front + [last];
    if DistinctlyNamed(q, all, r) {
      forall i, j | 0 <= i < j < |front| && CountsFor(q, front[i], r) && CountsFor(q, front[j], r)
        ensures front[i].name != front[j].name
      {
        assert all[i] == front[i] && all[j] == front[j];
      }
      if CountsFor(q, last, r) {
        forall o | o in front && CountsFor(q, o, r)
          ensures o.name != last.name
        {
          var i :| 0 <= i < |front| && front[i] == o;
          assert all[i] == o && all[|front|] == last;
        }
      }
    }
    if DistinctlyNamed(q, front, r) && (CountsFor(q, last, r) ==> last.name !in NamesIn(q, front, r)) {
      forall i, j | 0 <= i < j < |all| && CountsFor(q, all[i], r) && CountsFor(q, all[j], r)
        ensures all[i].name != all[j].name
      {
        assert all[i] == front[i] && front[i] in front;
      }
    }
  }

  ghost function Carried(q: Query, e: CostEvent): (c: real) {
    CostOf(e) * CarriedFraction(q, e.runId)
  }

  ghost function Whole(q: Query, e: CostEvent): (c: real) {
    if TimesProduced(q, e.runId) > 0 then CostOf(e) else 0.0
  }

  /** A run has at most as many names as outcomes, and as many only if no name repeats. */
  lemma {:induction false} NamesAtMostOutcomes(q: Query, outcomes: seq<OutcomeEvent>, r: RunId)
    ensures |NamesIn(q, outcomes, r)| <= TimesIn(q, outcomes, r)
    ensures |NamesIn(q, outcomes, r)| == TimesIn(q, outcomes, r) <==> DistinctlyNamed(q, outcomes, r)
    ensures |NamesIn(q, outcomes, r)| > 0 <==> TimesIn(q, outcomes, r) > 0
  {
    if outcomes != [] {
      var front, last := outcomes[..|outcomes| - 1], outcomes[|outcomes| - 1];
      assert outcomes == front + [last];
      NamesAtMostOutcomes(q, front, r);
      NamesPush(q, front, last, r);
      DistinctPush(q, front, last, r);
      AddOne(NamesIn(q, front, r), last.name);
    }
  }

  lemma AddOne<T>(s: set<T>, x: T)
    ensures |s + {x}| == if x in s then |s| else |s| + 1
    ensures s + {} == s
  {
    if x in s {
      assert s + {x} == s;
    }
  }

  // ----- the cells -----

  lemma CellIsName(q: Query, name: string, o: OutcomeEvent)
    requires q.plan.groupBy == [OutcomeName]
    ensures OutcomeKey(o, q.plan.groupBy) == NameKey(o.name)
    ensures InCell(q, NameKey(name), o) <==> o.name == name
  {
    var g, k := q.plan.groupBy, OutcomeKey(o, q.plan.groupBy);
    assert g[..|g| - 1] == [] && g[|g| - 1] == OutcomeName;
    assert OutcomeKey(o, g[..|g| - 1]) == [];
    assert k == [] + [(OutcomeName, o.name)];
    assert Lookup(k, OutcomeName) == Some(o.name);
    assert (OutcomeName, name) in NameKey(name);
  }

  lemma EventsInEveryCell(q: Query, key: Key, e: CostEvent)
    requires q.plan.groupBy == [OutcomeName]
    ensures CostKey(q, e, q.plan.groupBy) == [] && EventInCell(q, key, e)
  {
    assert q.plan.groupBy[..0] == [];
  }

  /** Every group is the cell of a name present, or the single blank group of an empty report. */
  lemma NameCells(q: Query, key: Key)
    requires q.plan.groupBy == [OutcomeName] && key in CellKeys(q)
    ensures if q.outcomes == [] then key == [] else exists o :: o in q.outcomes && key == NameKey(o.name)
  {
    CellKeyElements(q);
    forall e | e in q.events
      ensures CostKey(q, e, q.plan.groupBy) == []
    {
      EventsInEveryCell(q, key, e);
    }
    forall o
      ensures OutcomeKey(o, q.plan.groupBy) == NameKey(o.name)
    {
      CellIsName(q, o.name, o);
    }
    if q.outcomes != [] {
      assert q.outcomes[0] in q.outcomes;
      assert NameKey(q.outcomes[0].name) in CellKeys(q);
    }
  }

  /** A name's cell is produced by run r exactly when r has a billing-grade outcome of that name. */
  lemma ProducesName(q: Query, name: string, r: RunId)
    requires ByOutcomeName(q)
    ensures Produces(q, NameKey(name), r) <==> name in NamesOf(q, r)
  {
    forall o
      ensures InCell(q, NameKey(name), o) <==> o.name == name
    {
      CellIsName(q, name, o);
    }
  }

  ghost function NameKeys(names: set<string>): (ks: set<Key>) {
    set n | n in names :: NameKey(n)
  }

  lemma {:induction false} NameKeysCount(names: set<string>)
    ensures |NameKeys(names)| == |names|
    decreases names
  {
    if names != {} {
      var n :| n in names;
      NameKeysCount(names - {n});
      assert NameKey(n)[0].1 == n;
      assert NameKey(n) !in NameKeys(names - {n}) by {
        forall m | m in names - {n}
          ensures NameKey(m) != NameKey(n)
        {
          assert NameKey(m)[0].1 == m;
        }
      }
      assert NameKeys(names) == NameKeys(names - {n}) + {NameKey(n)};
    }
  }

  lemma {:induction false} CountIsCardinality<T>(s: seq<T>, p: T -> bool, chosen: set<T>)
    requires NoDuplicates(s)
    requires forall x :: x in chosen <==> x in s && p(x)
    ensures CountBy(s, p) == |chosen|
  {
    if s == [] {
      assert chosen == {};
    } else {
      var front, last := s[..|s| - 1], s[|s| - 1];
      assert forall x :: x in s <==> x in front || x == last;
      CountIsCardinality(front, p, chosen - {last});
      AddOne(chosen - {last}, last);
      assert p(last) ==> chosen - {last} + {last} == chosen;
      assert !p(last) ==> chosen - {last} == chosen;
    }
  }

  /** The number of cells a run is charged in is its number of distinct names. */
  lemma CellsPerRun(q: Query, r: RunId)
    requires ByOutcomeName(q)
    ensures CountBy(CellKeys(q), k => Produces(q, k, r)) == |NamesOf(q, r)|
  {
    CellKeyElements(q);
    forall k
      ensures k in NameKeys(NamesOf(q, r)) <==> k in CellKeys(q) && Produces(q, k, r)
    {
      ChargedCell(q, k, r);
    }
    CountIsCardinality(CellKeys(q), k => Produces(q, k, r), NameKeys(NamesOf(q, r)));
    NameKeysCount(NamesOf(q, r));
  }

  lemma ChargedCell(q: Query, k: Key, r: RunId)
    requires ByOutcomeName(q)
    ensures k in CellKeys(q) && Produces(q, k, r) <==> k in NameKeys(NamesOf(q, r))
  {
    if k in CellKeys(q) && Produces(q, k, r) {
      NameCells(q, k);
      var o :| o in q.outcomes && k == NameKey(o.name);
      ProducesName(q, o.name, r);
    }
    if k in NameKeys(NamesOf(q, r)) {
      var n :| n in NamesOf(q, r) && k == NameKey(n);
      var o :| o in q.outcomes && CountsFor(q, o, r) && o.name == n;
      CellIsName(q, n, o);
      ProducesName(q, n, r);
      CellKeyElements(q);
    }
  }

  // ----- what the columns add up to -----

  /** The groups that have a producing run; the others report the whole window. */
  ghost function ProducingCells(q: Query): (ks: seq<Key>) {
    FilterBy(CellKeys(q), k => HasProducer(q, k))
  }

  ghost function Columns(q: Query): (total: real) {
    SumBy(ProducingCells(q), k => NumeratorOf(q, k))
  }

  lemma CarriedCost(cost: real, names: nat, times: nat, share: real)
    requires names <= times && (names == 0 <==> times == 0)
    requires share == if times > 1 then 1.0 / times as real else 1.0
    ensures Times(names, cost * share) == cost * (if times == 0 then 0.0 else names as real / times as real)
  {
    if times > 1 {
      var n, t := names as real, times as real;
      assert t * share == 1.0;
      assert n / t == n * share;
      assert n * (cost * share) == cost * (n * share);
    } else if times == 1 {
      assert names as real / 1.0 == 1.0;
    }
  }

  /** Across all columns one event is charged its run's carried fraction, no more and no less. */
  lemma EventAcrossColumns(q: Query, e: CostEvent)
    requires ByOutcomeName(q) && e in q.events
    ensures SumBy(ProducingCells(q), k => Charge(q, k, e)) == Carried(q, e)
  {
    SplitAcrossColumns(q, e);
    CarriedIsSplit(q, e);
  }

  lemma SplitAcrossColumns(q: Query, e: CostEvent)
    requires ByOutcomeName(q) && e in q.events
    ensures SumBy(ProducingCells(q), k => Charge(q, k, e)) == Times(|NamesOf(q, e.runId)|, SplitCost(q, e))
  {
    var r := e.runId;
    ProducingCellElements(q);
    forall k | k in ProducingCells(q)
      ensures Charge(q, k, e) == if Produces(q, k, r) then SplitCost(q, e) else 0.0
    {
      ChargeInProducingCell(q, k, e);
    }
    CellsChargedFor(q, r);
    SumByIndicator(ProducingCells(q), k => Produces(q, k, r), SplitCost(q, e), k => Charge(q, k, e));
  }

  lemma CarriedIsSplit(q: Query, e: CostEvent)
    requires ByOutcomeName(q)
    ensures Times(|NamesOf(q, e.runId)|, SplitCost(q, e)) == Carried(q, e)
  {
    NamesAtMostOutcomes(q, q.outcomes, e.runId);
    CarriedCost(CostOf(e), |NamesOf(q, e.runId)|, TimesProduced(q, e.runId), ShareOf(q, e.runId));
  }

  lemma ProducingCellElements(q: Query)
    ensures forall k :: k in ProducingCells(q) <==> k in CellKeys(q) && HasProducer(q, k)
  {
    FilterByElements(CellKeys(q), k => HasProducer(q, k));
    forall k
      ensures k in ProducingCells(q) <==> k in CellKeys(q) && HasProducer(q, k)
    {
      assert ((k: Key) => HasProducer(q, k))(k) == HasProducer(q, k);
    }
  }

  lemma ChargeInProducingCell(q: Query, k: Key, e: CostEvent)
    requires ByOutcomeName(q) && HasProducer(q, k)
    ensures Charge(q, k, e) == if Produces(q, k, e.runId) then SplitCost(q, e) else 0.0
  {
    EventsInEveryCell(q, k, e);
  }

  lemma CellsChargedFor(q: Query, r: RunId)
    requires ByOutcomeName(q)
    ensures CountBy(ProducingCells(q), k => Produces(q, k, r)) == |NamesOf(q, r)|
  {
    CellsPerRun(q, r);
    forall k
      ensures Produces(q, k, r) == (HasProducer(q, k) && Produces(q, k, r))
    {
    }
    CountByFilter(CellKeys(q), k => HasProducer(q, k), k => Produces(q, k, r), k => Produces(q, k, r));
  }

  /** The columns with a producing run sum to each event's cost times its run's carried fraction. */
  lemma ColumnsCarry(q: Query)
    requires ByOutcomeName(q)
    ensures Columns(q) == SumBy(q.events, e => Carried(q, e))
  {
    forall e | e in q.events
      ensures Carried(q, e) == SumBy(ProducingCells(q), k => Charge(q, k, e))
    {
      EventAcrossColumns(q, e);
    }
    SumBySwap(ProducingCells(q), q.events, k => e => Charge(q, k, e), e => k => Charge(q, k, e),
              k => NumeratorOf(q, k), e => Carried(q, e));
  }

  /** The window's spend on runs that produced a billing-grade outcome. */
  ghost function ProducingSpend(q: Query): (total: real) {
    SumBy(q.events, e => Whole(q, e))
  }

  /** Each event with a cost sits on a run whose billing-grade outcomes are distinctly named. */
  ghost predicate SpendDistinctlyNamed(q: Query) {
    forall e :: e in q.events && CostOf(e) != 0.0 ==> DistinctlyNamed(q, q.outcomes, e.runId)
  }

  lemma CarriedAtMostAll(q: Query, e: CostEvent)
    requires CostOf(e) >= 0.0
    ensures Carried(q, e) <= Whole(q, e)
    ensures Carried(q, e) == Whole(q, e) <==> CostOf(e) == 0.0 || DistinctlyNamed(q, q.outcomes, e.runId)
  {
    NamesAtMostOutcomes(q, q.outcomes, e.runId);
    if TimesProduced(q, e.runId) > 0 {
      PartOfWhole(CostOf(e), |NamesOf(q, e.runId)|, TimesProduced(q, e.runId));
    }
  }

  lemma PartOfWhole(cost: real, names: nat, times: nat)
    requires cost >= 0.0 && names <= times && times > 0
    ensures cost * (names as real / times as real) <= cost
    ensures cost * (names as real / times as real) == cost <==> cost == 0.0 || names == times
  {
    var f := names as real / times as real;
    assert f * times as real == names as real;
    if names == times {
      assert f == 1.0;
    } else {
      assert f < 1.0;
      if cost > 0.0 {
        assert cost * f < cost * 1.0;
      }
    }
  }

  /**
   * With non-negative costs the columns never sum above the spend on producing runs, and reach it
   * exactly when no run with spend has two billing-grade outcomes of one name.
   */
  lemma ColumnsReconcile(q: Query)
    requires ByOutcomeName(q) && forall e :: e in q.events ==> CostOf(e) >= 0.0
    ensures Columns(q) <= ProducingSpend(q)
    ensures Columns(q) == ProducingSpend(q) <==> SpendDistinctlyNamed(q)
  {
    ColumnsCarry(q);
    forall e | e in q.events
      ensures Carried(q, e) <= Whole(q, e)
      ensures Carried(q, e) == Whole(q, e) <==> CostOf(e) == 0.0 || DistinctlyNamed(q, q.outcomes, e.runId)
    {
      CarriedAtMostAll(q, e);
    }
    SumByBound(q.events, e => Carried(q, e), e => Whole(q, e));
    SumByTight(q.events, e => Carried(q, e), e => Whole(q, e));
  }

  /** A group with no producing run reports the whole window once more, at the split rates. */
  lemma FullTableIsColumnsPlusFallbacks(q: Query)
    requires ByOutcomeName(q)
    ensures SumBy(CellKeys(q), k => NumeratorOf(q, k)) ==
            Columns(q) + Times(CountBy(CellKeys(q), k => !HasProducer(q, k)), WindowTotal(q))
  {
    SumByFilter(CellKeys(q), k => HasProducer(q, k), k => NumeratorOf(q, k), k => ProducedPart(q, k));
    SumByAdd(CellKeys(q), k => ProducedPart(q, k), k => FallbackPart(q, k), k => NumeratorOf(q, k));
    FallbacksRepeatWindow(q);
  }

  lemma FallbacksRepeatWindow(q: Query)
    requires ByOutcomeName(q)
    ensures SumBy(CellKeys(q), k => FallbackPart(q, k)) ==
            Times(CountBy(CellKeys(q), k => !HasProducer(q, k)), WindowTotal(q))
  {
    forall k | k in CellKeys(q)
      ensures FallbackPart(q, k) == if !HasProducer(q, k) then WindowTotal(q) else 0.0
    {
      if !HasProducer(q, k) {
        FallbackCell(q, k);
      }
    }
    SumByIndicator(CellKeys(q), k => !HasProducer(q, k), WindowTotal(q), k => FallbackPart(q, k));
  }

  ghost function ProducedPart(q: Query, k: Key): (v: real) {
    if HasProducer(q, k) then NumeratorOf(q, k) else 0.0
  }

  ghost function FallbackPart(q: Query, k: Key): (v: real) {
    if HasProducer(q, k) then 0.0 else NumeratorOf(q, k)
  }

  ghost function WindowTotal(q: Query): (total: real) {
    SumBy(q.events, e => SplitCost(q, e))
  }

  lemma FallbackCell(q: Query, k: Key)
    requires ByOutcomeName(q) && !HasProducer(q, k)
    ensures NumeratorOf(q, k) == WindowTotal(q)
  {
    forall e | e in q.events
      ensures Charge(q, k, e) == SplitCost(q, e)
    {
      EventsInEveryCell(q, k, e);
    }
    SumByCongruent(q.events, e => Charge(q, k, e), e => SplitCost(q, e));
  }

  /**
   * With distinct names the whole table still over-reports by one window per group that has no
   * producing run: it reconciles exactly when there is no such group, or nothing was spent.
   */
  lemma TableReconcilesIff(q: Query)
    requires ByOutcomeName(q) && SpendDistinctlyNamed(q)
    requires forall e :: e in q.events ==> CostOf(e) >= 0.0
    ensures SumBy(CellKeys(q), k => NumeratorOf(q, k)) == ProducingSpend(q) <==>
            (forall k :: k in CellKeys(q) ==> HasProducer(q, k)) || WindowTotal(q) == 0.0
  {
    var fallbacks := CountBy(CellKeys(q), k => !HasProducer(q, k));
    ColumnsReconcile(q);
    FullTableIsColumnsPlusFallbacks(q);
    CountByPositive(CellKeys(q), k => !HasProducer(q, k));
    TimesZero(fallbacks, WindowTotal(q));
  }

  lemma TimesZero(n: nat, c: real)
    ensures Times(n, c) == 0.0 <==> n == 0 || c == 0.0
  {
  }

  /** The promise that the columns always reconcile fails once a run repeats an outcome name. */
  lemma RepeatedNameUnderReports() returns (q: Query)
    ensures ByOutcomeName(q) && (forall e :: e in q.events ==> CostOf(e) >= 0.0)
    ensures Columns(q) < ProducingSpend(q)
  {
    var event := CostEvent("t", "r", "1", "p", "m", Some(10.0), 0);
    var binding := OutcomeBinding(Some("r"), Some(Exact), None, Observational);
    var first := OutcomeEvent("t", "o1", "booked", OutcomeConfirmed, 0, binding, {}, None, "s");
    var second := first.(id := "o2");
    q := Query(Plan(TotalCostUsd, VerifiedOutcomeCount, [], [OutcomeName]), "t", [event], [first, second], None, []);
    assert CountsFor(q, q.outcomes[0], "r") && CountsFor(q, q.outcomes[1], "r");
    assert !DistinctlyNamed(q, q.outcomes, "r");
    assert event in q.events && CostOf(event) != 0.0;
    ColumnsReconcile(q);
  }
}
