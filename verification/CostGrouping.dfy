/** Grouping by cost dimensions partitions the events: totals merge by addition when coarsened. */
module CostGrouping {
  import opened Folds
  import opened Confidence
  import opened Records
  import opened Metrics

  predicate CostOnly(groupBy: seq<Dimension>) {
    OutcomeName !in groupBy
  }

  /** The key a coarser grouping gives to the records of a finer cell. */
  function Project(k: Key, groupBy: seq<Dimension>): (r: Key) {
    if groupBy == [] then []
    else
      var d := groupBy[|groupBy| - 1];
      var v := Lookup(k, d);
      Project(k, groupBy[..|groupBy| - 1]) + [(d, if v.Some? then v.value else "")]
  }

  // ----- keys of one grouping -----

  lemma {:induction false} CostKeyShape(q: Query, e: CostEvent, groupBy: seq<Dimension>)
    requires CostOnly(groupBy)
    ensures |CostKey(q, e, groupBy)| == |groupBy|
    ensures forall i :: 0 <= i < |groupBy| ==> CostKey(q, e, groupBy)[i] == (groupBy[i], CostValue(q, e, groupBy[i]))
  {
    if groupBy != [] {
      CostKeyShape(q, e, groupBy[..|groupBy| - 1]);
    }
  }

  lemma {:induction false} LookupCostKey(q: Query, e: CostEvent, groupBy: seq<Dimension>, d: Dimension)
    requires CostOnly(groupBy)
    ensures Lookup(CostKey(q, e, groupBy), d) == if d in groupBy then Some(CostValue(q, e, d)) else None
  {
    if groupBy != [] {
      var front, last := groupBy[..|groupBy| - 1], groupBy[|groupBy| - 1];
      LookupCostKey(q, e, front, d);
      LookupPush(CostKey(q, e, front), (last, CostValue(q, e, last)), d);
      assert groupBy == front + [last];
    }
  }

  lemma LookupPush(k: Key, p: (Dimension, string), d: Dimension)
    ensures Lookup(k + [p], d) == if p.0 == d then Some(p.1) else Lookup(k, d)
  {
    assert (k + [p])[..|k|] == k;
  }

  lemma {:induction false} OutcomeKeyBlank(o: OutcomeEvent, groupBy: seq<Dimension>)
    requires CostOnly(groupBy)
    ensures OutcomeKey(o, groupBy) == []
  {
    if groupBy != [] {
      OutcomeKeyBlank(o, groupBy[..|groupBy| - 1]);
    }
  }

  /** Two events are in each other's cell exactly when they have the same key. */
  lemma MatchIsEquality(q: Query, e: CostEvent, f: CostEvent, groupBy: seq<Dimension>)
    requires CostOnly(groupBy)
    ensures MatchesKey(CostKey(q, e, groupBy), CostKey(q, f, groupBy)) <==>
            CostKey(q, e, groupBy) == CostKey(q, f, groupBy)
  {
    var a, b := CostKey(q, e, groupBy), CostKey(q, f, groupBy);
    CostKeyShape(q, e, groupBy);
    CostKeyShape(q, f, groupBy);
    forall d | d in groupBy
      ensures Lookup(a, d) == Some(CostValue(q, e, d))
    {
      LookupCostKey(q, e, groupBy, d);
    }
    if MatchesKey(a, b) {
      forall i | 0 <= i < |groupBy|
        ensures a[i] == b[i]
      {
        assert b[i] in b && groupBy[i] in groupBy;
      }
    }
    if a == b {
      forall p | p in b
        ensures Lookup(a, p.0) == Some(p.1)
      {
        var i :| 0 <= i < |b| && b[i] == p;
        assert groupBy[i] in groupBy;
      }
    }
  }

  lemma {:induction false} ProjectCostKey(q: Query, e: CostEvent, groupBy: seq<Dimension>, coarse: seq<Dimension>)
    requires CostOnly(groupBy) && forall d :: d in coarse ==> d in groupBy
    ensures Project(CostKey(q, e, groupBy), coarse) == CostKey(q, e, coarse)
  {
    if coarse != [] {
      var front, last := coarse[..|coarse| - 1], coarse[|coarse| - 1];
      assert last in coarse && forall d :: d in front ==> d in coarse;
      ProjectCostKey(q, e, groupBy, front);
      LookupCostKey(q, e, groupBy, last);
    }
  }

  lemma {:induction false} FirstSeenElements(keys: seq<Key>)
    ensures NoDuplicates(FirstSeen(keys))
    ensures forall k :: k in FirstSeen(keys) <==> k != [] && k in keys
  {
    if keys != [] {
      var front, last := keys[..|keys| - 1], keys[|keys| - 1];
      FirstSeenElements(front);
      assert forall k :: k in keys <==> k in front || k == last;
    }
  }

  lemma RecordKeyElements(q: Query)
    ensures forall e :: e in q.events ==> CostKey(q, e, q.plan.groupBy) in RecordKeys(q)
    ensures forall o :: o in q.outcomes ==> OutcomeKey(o, q.plan.groupBy) in RecordKeys(q)
  {
    var ks := RecordKeys(q);
    forall e | e in q.events
      ensures CostKey(q, e, q.plan.groupBy) in ks
    {
      var i :| 0 <= i < |q.events| && q.events[i] == e;
      assert ks[i] == CostKey(q, e, q.plan.groupBy);
    }
    forall o | o in q.outcomes
      ensures OutcomeKey(o, q.plan.groupBy) in ks
    {
      var i :| 0 <= i < |q.outcomes| && q.outcomes[i] == o;
      assert ks[|q.events| + i] == OutcomeKey(o, q.plan.groupBy);
    }
  }

  ghost predicate IsRecordKey(q: Query, k: Key) {
    || (exists e :: e in q.events && k == CostKey(q, e, q.plan.groupBy))
    || (exists o :: o in q.outcomes && k == OutcomeKey(o, q.plan.groupBy))
  }

  lemma RecordKeyOrigin(q: Query, k: Key)
    requires k in RecordKeys(q)
    ensures IsRecordKey(q, k)
  {
    var ks := RecordKeys(q);
    var i :| 0 <= i < |ks| && ks[i] == k;
    if i < |q.events| {
      assert q.events[i] in q.events;
    } else {
      assert q.outcomes[i - |q.events|] in q.outcomes;
    }
  }

  /** The groups of any report: no group twice, and every record's non-blank key is one. */
  lemma CellKeyElements(q: Query)
    ensures NoDuplicates(CellKeys(q)) && CellKeys(q) != []
    ensures forall k :: k in CellKeys(q) ==> k == [] || IsRecordKey(q, k)
    ensures forall e :: e in q.events && CostKey(q, e, q.plan.groupBy) != [] ==>
                          CostKey(q, e, q.plan.groupBy) in CellKeys(q)
    ensures forall o :: o in q.outcomes && OutcomeKey(o, q.plan.groupBy) != [] ==>
                          OutcomeKey(o, q.plan.groupBy) in CellKeys(q)
    ensures [] in CellKeys(q) ==> CellKeys(q) == [[]]
  {
    FirstSeenElements(RecordKeys(q));
    RecordKeyElements(q);
    forall k | k in CellKeys(q) && k != []
      ensures IsRecordKey(q, k)
    {
      RecordKeyOrigin(q, k);
    }
  }

  // ----- what one event adds to one cell -----

  predicate Additive(plan: Plan) {
    plan.numerator == TotalCostUsd || plan.numerator == AttemptCount
  }

  ghost function Unit(q: Query, e: CostEvent): (u: real) {
    if q.plan.numerator == TotalCostUsd then SplitCost(q, e) else 1.0
  }

  ghost function Weight(q: Query, key: Key, e: CostEvent): (w: real) {
    if InNumerator(q, key, e) then Unit(q, e) else 0.0
  }

  lemma NumeratorIsSum(q: Query, key: Key)
    requires Additive(q.plan)
    ensures NumeratorOf(q, key) == SumBy(q.events, e => Weight(q, key, e))
  {
    if q.plan.numerator == TotalCostUsd {
      SumByCongruent(q.events, e => Charge(q, key, e), e => Weight(q, key, e));
    } else {
      SumByIndicator(q.events, e => InNumerator(q, key, e), 1.0, e => Weight(q, key, e));
      TimesNext(CountBy(q.events, e => InNumerator(q, key, e)), 1.0);
    }
  }

  /** Under cost-only grouping every cell sees all outcomes, so narrowing is the same in each. */
  lemma NarrowingIsUniform(q: Query, key: Key, e: CostEvent)
    requires CostOnly(q.plan.groupBy)
    ensures InNumerator(q, key, e) <==> EventInCell(q, key, e) && InNumerator(q, [], e)
  {
    forall o
      ensures InCell(q, key, o) && InCell(q, [], o)
    {
      OutcomeKeyBlank(o, q.plan.groupBy);
    }
    assert forall r :: Produces(q, key, r) <==> Produces(q, [], r);
  }

  ghost function Coarsened(q: Query, coarse: seq<Dimension>): (c: Query) {
    q.(plan := q.plan.(groupBy := coarse))
  }

  /** Neither narrowing nor the share depends on which cost dimensions are grouped by. */
  lemma WeightIgnoresGrouping(q: Query, coarse: seq<Dimension>, e: CostEvent)
    requires CostOnly(q.plan.groupBy) && CostOnly(coarse)
    ensures Weight(Coarsened(q, coarse), [], e) == Weight(q, [], e)
  {
    var c := Coarsened(q, coarse);
    forall o, r
      ensures CountsFor(c, o, r) <==> CountsFor(q, o, r)
    {
    }
    assert forall o :: InCell(c, [], o) && InCell(q, [], o);
    assert forall r :: Produces(c, [], r) <==> Produces(q, [], r);
  }

  /** The event's weight lands in the one cell that carries its key. */
  lemma WeightInOneCell(q: Query, key: Key, e: CostEvent)
    requires CostOnly(q.plan.groupBy) && e in q.events && key in CellKeys(q)
    ensures Weight(q, key, e) == if key == CostKey(q, e, q.plan.groupBy) then Weight(q, [], e) else 0.0
  {
    NarrowingIsUniform(q, key, e);
    CellKeyElements(q);
    CostKeyShape(q, e, q.plan.groupBy);
    if key == [] {
      assert q.plan.groupBy == [];
    } else if exists o :: o in q.outcomes && key == OutcomeKey(o, q.plan.groupBy) {
      var o :| o in q.outcomes && key == OutcomeKey(o, q.plan.groupBy);
      OutcomeKeyBlank(o, q.plan.groupBy);
    } else {
      var f :| f in q.events && key == CostKey(q, f, q.plan.groupBy);
      MatchIsEquality(q, e, f, q.plan.groupBy);
    }
  }

  /** Over the finer cells that project to a coarser key, an event contributes what it does there. */
  lemma WeightOverFinerCells(q: Query, coarse: seq<Dimension>, key: Key, e: CostEvent, finer: seq<Key>)
    requires CostOnly(q.plan.groupBy) && forall d :: d in coarse ==> d in q.plan.groupBy
    requires e in q.events && key in CellKeys(Coarsened(q, coarse))
    requires NoDuplicates(finer) && forall k :: k in finer <==> k in CellKeys(q) && Project(k, coarse) == key
    ensures SumBy(finer, k => Weight(q, k, e)) == Weight(Coarsened(q, coarse), key, e)
  {
    var c := Coarsened(q, coarse);
    var own := CostKey(q, e, q.plan.groupBy);
    forall k | k in finer
      ensures Weight(q, k, e) == if k == own then Weight(q, [], e) else 0.0
    {
      WeightInOneCell(q, k, e);
    }
    CellKeyElements(q);
    CostKeyShape(q, e, q.plan.groupBy);
    ProjectCostKey(q, e, q.plan.groupBy, coarse);
    CostKeyIgnoresPlan(q, coarse, e);
    WeightInOneCell(c, key, e);
    WeightIgnoresGrouping(q, coarse, e);
    if own in finer {
      SumByPoint(finer, k => Weight(q, k, e), own);
    } else {
      SumByZero(finer, k => Weight(q, k, e));
    }
  }

  lemma {:induction false} CostKeyIgnoresPlan(q: Query, coarse: seq<Dimension>, e: CostEvent)
    ensures CostKey(Coarsened(q, coarse), e, coarse) == CostKey(q, e, coarse)
  {
    CostKeyOfAnyPlan(q, Coarsened(q, coarse), e, coarse);
  }

  lemma {:induction false} CostKeyOfAnyPlan(q: Query, c: Query, e: CostEvent, groupBy: seq<Dimension>)
    requires c.tenant == q.tenant && c.runs == q.runs
    ensures CostKey(c, e, groupBy) == CostKey(q, e, groupBy)
  {
    if groupBy != [] {
      CostKeyOfAnyPlan(q, c, e, groupBy[..|groupBy| - 1]);
    }
  }

  /**
   * Coarsening merges cells by addition: each cell of a coarser cost grouping reports exactly the
   * sum of the finer cells that project to it, even after narrowing to producing runs.
   */
  lemma CoarseningMergesCells(q: Query, coarse: seq<Dimension>, key: Key)
    requires Additive(q.plan) && CostOnly(q.plan.groupBy) && forall d :: d in coarse ==> d in q.plan.groupBy
    requires key in CellKeys(Coarsened(q, coarse))
    ensures NumeratorOf(Coarsened(q, coarse), key) ==
            SumBy(FilterBy(CellKeys(q), k => Project(k, coarse) == key), k => NumeratorOf(q, k))
  {
    var c := Coarsened(q, coarse);
    var finer := FilterBy(CellKeys(q), k => Project(k, coarse) == key);
    CellKeyElements(q);
    FilterByElements(CellKeys(q), k => Project(k, coarse) == key);
    FilterKeepsDistinct(CellKeys(q), k => Project(k, coarse) == key);
    forall k
      ensures k in finer <==> k in CellKeys(q) && Project(k, coarse) == key
    {
      assert ((k: Key) => Project(k, coarse) == key)(k) == (Project(k, coarse) == key);
    }
    forall k | k in finer
      ensures NumeratorOf(q, k) == SumBy(q.events, e => Weight(q, k, e))
    {
      NumeratorIsSum(q, k);
    }
    forall e | e in q.events
      ensures Weight(c, key, e) == SumBy(finer, k => Weight(q, k, e))
    {
      WeightOverFinerCells(q, coarse, key, e, finer);
    }
    SumBySwap(finer, q.events, k => e => Weight(q, k, e), e => k => Weight(q, k, e),
              k => NumeratorOf(q, k), e => Weight(c, key, e));
    NumeratorIsSum(c, key);
  }

  lemma {:induction false} FilterKeepsDistinct<T>(s: seq<T>, p: T -> bool)
    requires NoDuplicates(s)
    ensures NoDuplicates(FilterBy(s, p))
  {
    if s != [] {
      FilterKeepsDistinct(s[..|s| - 1], p);
      FilterByElements(s[..|s| - 1], p);
    }
  }

  /** The columns of any cost grouping add up to the ungrouped figure. */
  lemma ColumnsSumToUngrouped(q: Query)
    requires Additive(q.plan) && CostOnly(q.plan.groupBy)
    ensures SumBy(CellKeys(q), k => NumeratorOf(q, k)) == NumeratorOf(Coarsened(q, []), [])
  {
    assert CellKeys(Coarsened(q, [])) == [[]];
    assert [] in CellKeys(Coarsened(q, []));
    CoarseningMergesCells(q, [], []);
    FilterAll(CellKeys(q), k => Project(k, []) == []);
  }

  lemma {:induction false} FilterAll<T>(s: seq<T>, p: T -> bool)
    requires forall x :: x in s ==> p(x)
    ensures FilterBy(s, p) == s
  {
    if s != [] {
      var n := |s| - 1;
      FilterAll(s[..n], p);
      SlicePush(s, n);
      SliceAll(s);
    }
  }
}
