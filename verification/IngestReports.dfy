/** Reports over what was ingested: the same deliveries give the same cells. */
module IngestReports {
  import opened Folds
  import opened Confidence
  import opened Records
  import opened Ingest
  import opened IngestOrder
  import opened IngestClock
  import opened IngestAgents
  import opened Metrics
  import opened CostGrouping
  import opened ReportOrder

  // ----- what the repositories list -----

  /** A repository listing of a tenant's events in [start, end): each stored event once. */
  ghost predicate ListsEvents(events: seq<CostEvent>, s: State, tenant: TenantId, start: int, end: int) {
    && NoDuplicates(events)
    && forall e :: e in events <==>
                   EventKeyOf(e) in s.costs && s.costs[EventKeyOf(e)] == e && e.tenant == tenant && InWindow(e, start, end)
  }

  ghost predicate ListsOutcomes(outcomes: seq<OutcomeEvent>, s: State, tenant: TenantId, start: int, end: int) {
    && NoDuplicates(outcomes)
    && forall o :: o in outcomes <==>
                   SlotOf(o) in s.outcomes && s.outcomes[SlotOf(o)] == o && o.tenant == tenant && start <= o.occurredAt < end
  }

  /** The run rows one tenant's repository serves. */
  ghost function TenantRuns(runs: RunTable, tenant: TenantId): (m: map<RunId, Run>) {
    map k | k in runs && k.0 == tenant :: k.1 := runs[k]
  }

  lemma TenantRunsAgent(runs: RunTable, tenant: TenantId, r: RunId)
    ensures AgentOf(Some(TenantRuns(runs, tenant)), r) == RowAgent(runs, tenant, r)
  {
    var m := TenantRuns(runs, tenant);
    if (tenant, r) in runs {
      assert r in m && m[r] == runs[(tenant, r)];
    }
  }

  // ----- listings without their times -----

  /** What the filtered window holds, read off the store's views. */
  lemma TimelessListing(window: seq<CostEvent>, s: State, tenant: TenantId, start: int, end: int,
                        filters: seq<(Dimension, string)>, x: CostEvent)
    requires ListsEvents(window, s, tenant, start, end)
    ensures x in TimelessAll(FilterBy(window, e => MatchesFilters(e, filters))) <==>
            x.tenant == tenant && MatchesFilters(x, filters) && ViewOf(s.costs, EventKeyOf(x), start, end) == Some(x)
  {
    var selected := FilterBy(window, e => MatchesFilters(e, filters));
    SelectedEvents(window, filters);
    if x in TimelessAll(selected) {
      var i :| 0 <= i < |selected| && TimelessAll(selected)[i] == x;
      assert selected[i] in selected && EventKeyOf(selected[i]) == EventKeyOf(x);
    }
    if x.tenant == tenant && MatchesFilters(x, filters) && ViewOf(s.costs, EventKeyOf(x), start, end) == Some(x) {
      var e := s.costs[EventKeyOf(x)];
      assert Timeless(e) == x && EventKeyOf(e) == EventKeyOf(x);
      assert e in selected;
      var i :| 0 <= i < |selected| && selected[i] == e;
      assert TimelessAll(selected)[i] == x;
    }
  }

  lemma SelectedEvents(window: seq<CostEvent>, filters: seq<(Dimension, string)>)
    ensures forall e :: e in FilterBy(window, e => MatchesFilters(e, filters)) <==> e in window && MatchesFilters(e, filters)
  {
    FilterByElements(window, e => MatchesFilters(e, filters));
    forall e
      ensures e in FilterBy(window, e => MatchesFilters(e, filters)) <==> e in window && MatchesFilters(e, filters)
    {
      assert ((e: CostEvent) => MatchesFilters(e, filters))(e) == MatchesFilters(e, filters);
    }
  }

  /** Events of one store differ in their keys, so they stay distinct without their times. */
  lemma TimelessDistinct(events: seq<CostEvent>, s: State)
    requires NoDuplicates(events) && forall e :: e in events ==> EventKeyOf(e) in s.costs && s.costs[EventKeyOf(e)] == e
    ensures NoDuplicates(TimelessAll(events))
  {
    var r := TimelessAll(events);
    forall i, j | 0 <= i < j < |r| ensures r[i] != r[j] {
      assert events[i] in events && events[j] in events;
      assert EventKeyOf(r[i]) == EventKeyOf(events[i]) && EventKeyOf(r[j]) == EventKeyOf(events[j]);
    }
  }

  lemma WindowDistinct(window: seq<CostEvent>, s: State, tenant: TenantId, start: int, end: int,
                       filters: seq<(Dimension, string)>)
    requires ListsEvents(window, s, tenant, start, end)
    ensures NoDuplicates(TimelessAll(FilterBy(window, e => MatchesFilters(e, filters))))
  {
    FilterKeepsDistinct(window, e => MatchesFilters(e, filters));
    SelectedEvents(window, filters);
    TimelessDistinct(FilterBy(window, e => MatchesFilters(e, filters)), s);
  }

  lemma SameTimelessWindows(qWindow: seq<CostEvent>, pWindow: seq<CostEvent>, s: State, t: State, tenant: TenantId,
                            start: int, end: int, filters: seq<(Dimension, string)>)
    requires ListsEvents(qWindow, s, tenant, start, end) && ListsEvents(pWindow, t, tenant, start, end)
    requires SameViews(s, t, start, end)
    ensures multiset(TimelessAll(FilterBy(qWindow, e => MatchesFilters(e, filters)))) ==
            multiset(TimelessAll(FilterBy(pWindow, e => MatchesFilters(e, filters))))
  {
    var a := TimelessAll(FilterBy(qWindow, e => MatchesFilters(e, filters)));
    var b := TimelessAll(FilterBy(pWindow, e => MatchesFilters(e, filters)));
    forall x ensures x in a <==> x in b {
      TimelessListing(qWindow, s, tenant, start, end, filters, x);
      TimelessListing(pWindow, t, tenant, start, end, filters, x);
    }
    WindowDistinct(qWindow, s, tenant, start, end, filters);
    WindowDistinct(pWindow, t, tenant, start, end, filters);
    ListingsArePermutations(a, b);
  }

  // ----- the reports -----

  /** q is the query of a plan over one tenant's window of a state; window is what the store lists. */
  ghost predicate QueryOver(q: Query, window: seq<CostEvent>, s: State, plan: Plan, tenant: TenantId, start: int, end: int) {
    && q.plan == plan && q.tenant == tenant
    && ListsEvents(window, s, tenant, start, end) && ListsOutcomes(q.outcomes, s, tenant, start, end)
    && q.events == FilterBy(window, e => MatchesFilters(e, plan.filters))
    && (AgentName in plan.groupBy ==> q.runs == Some(TenantRuns(s.runs, tenant)))
  }

  /** In every reachable state a billing-grade outcome names its run. */
  lemma StoredOutcomesBound(env: Environment, ds: seq<Delivery>, outcomes: seq<OutcomeEvent>, tenant: TenantId, start: int, end: int)
    requires ListsOutcomes(outcomes, RunAll(env, EMPTY, ds), tenant, start, end)
    ensures BoundToRuns(outcomes)
  {
    ReachableStatesAreSafe(env, ds);
    var s := RunAll(env, EMPTY, ds);
    forall o | o in outcomes && ClassOf(o) == Verified
      ensures o.binding.runId.Some?
    {
      assert Honest(s, s.outcomes[SlotOf(o)]);
    }
  }

  lemma SameAgents(env: Environment, ds: seq<Delivery>, es: seq<Delivery>, q: Query, p: Query, tenant: TenantId)
    requires SameContents(ds, es) && forall r :: OneAgent(ds, tenant, r)
    requires q.runs == Some(TenantRuns(RunAll(env, EMPTY, ds).runs, tenant))
    requires p.runs == Some(TenantRuns(RunAll(env, EMPTY, es).runs, tenant))
    ensures forall r :: AgentOf(q.runs, r) == AgentOf(p.runs, r)
  {
    forall r ensures AgentOf(q.runs, r) == AgentOf(p.runs, r) {
      AgentAgrees(env, ds, es, tenant, r);
      TenantRunsAgent(RunAll(env, EMPTY, ds).runs, tenant, r);
      TenantRunsAgent(RunAll(env, EMPTY, es).runs, tenant, r);
    }
  }

  /**
   * The same deliveries in any order, batching and multiplicity, read at any times, report the
   * same set of cells over a window all readings agree about, for every plan; one grouped by agent
   * needs each run's attempts to carry one agent.
   */
  lemma SameReportsInAnyOrder(env: Environment, ds: seq<Delivery>, es: seq<Delivery>, plan: Plan, tenant: TenantId,
                              start: int, end: int, q: Query, p: Query, r: MetricResult, u: MetricResult,
                              qWindow: seq<CostEvent>, pWindow: seq<CostEvent>)
    requires SameContents(ds, es) && Consistent(ds) && SteadyViews(env.price, ds, es, start, end)
    requires AgentName in plan.groupBy ==> forall r :: OneAgent(ds, tenant, r)
    requires QueryOver(q, qWindow, RunAll(env, EMPTY, ds), plan, tenant, start, end)
    requires QueryOver(p, pWindow, RunAll(env, EMPTY, es), plan, tenant, start, end)
    requires IsReport(q, r) && IsReport(p, u)
    ensures forall c :: c in r.cells <==> c in u.cells
  {
    var s, t := RunAll(env, EMPTY, ds), RunAll(env, EMPTY, es);
    ViewsAgree(env, ds, es, start, end);
    SameTimelessWindows(qWindow, pWindow, s, t, tenant, start, end, plan.filters);
    OutcomesAgree(env, ds, es);
    ListingsArePermutations(q.outcomes, p.outcomes);
    StoredOutcomesBound(env, ds, q.outcomes, tenant, start, end);
    if AgentName in plan.groupBy {
      SameAgents(env, ds, es, q, p, tenant);
    }
    ReportsAgree(q, p, r, u);
  }

  // ----- and a report that a redelivery changes -----

  const ATTEMPTS := Plan(AttemptCount, OutcomeCount, [], [])

  /** The ungrouped attempt count of a window is the number of events it lists. */
  lemma CountsTheWindow(q: Query, r: MetricResult, window: seq<CostEvent>, s: State, tenant: TenantId, start: int, end: int)
    requires QueryOver(q, window, s, ATTEMPTS, tenant, start, end) && IsReport(q, r)
    ensures |r.cells| == 1 && r.cells[0].numerator == |window| as real
  {
    assert CellKeys(q) == [[]];
    FilterAll(window, e => MatchesFilters(e, []));
    FilterByCongruent(window, e => MatchesFilters(e, ATTEMPTS.filters), e => MatchesFilters(e, []));
    CountsAll(q.events, e => InNumerator(q, [], e));
  }

  lemma {:induction false} CountsAll<T>(s: seq<T>, p: T -> bool)
    requires forall x :: x in s ==> p(x)
    ensures CountBy(s, p) == |s|
  {
    if s != [] {
      CountsAll(s[..|s| - 1], p);
    }
  }

  /** Every report of the attempt count over the window shows n attempts. */
  ghost predicate ReportsAttempts(s: State, n: real) {
    forall q, r, w :: QueryOver(q, w, s, ATTEMPTS, "t", 0, 10) && IsReport(q, r) ==>
                        |r.cells| == 1 && r.cells[0].numerator == n
  }

  /**
   * Redelivering one span takes its attempt out of the window: every report before shows one
   * attempt, every report after shows none, and there is such a report.
   */
  lemma RedeliveryChangesReport(env: Environment)
    returns (once: seq<Delivery>, twice: seq<Delivery>, q: Query, r: MetricResult, w: seq<CostEvent>)
    ensures SameContents(once, twice)
    ensures ReportsAttempts(RunAll(env, EMPTY, once), 1.0) && ReportsAttempts(RunAll(env, EMPTY, twice), 0.0)
    ensures QueryOver(q, w, RunAll(env, EMPTY, once), ATTEMPTS, "t", 0, 10) && IsReport(q, r)
  {
    var k;
    once, twice, k := RedeliveryMovesEvent(env);
    var s, t := RunAll(env, EMPTY, once), RunAll(env, EMPTY, twice);
    forall q, r, w | QueryOver(q, w, s, ATTEMPTS, "t", 0, 10) && IsReport(q, r)
      ensures |r.cells| == 1 && r.cells[0].numerator == 1.0
    {
      CountsTheWindow(q, r, w, s, "t", 0, 10);
      WindowOfOne(w, s, "t", k, 0, 10);
    }
    forall q, r, w | QueryOver(q, w, t, ATTEMPTS, "t", 0, 10) && IsReport(q, r)
      ensures |r.cells| == 1 && r.cells[0].numerator == 0.0
    {
      CountsTheWindow(q, r, w, t, "t", 0, 10);
      WindowOfNone(w, t, "t", k, 0, 10);
    }
    w := [s.costs[k]];
    q, r := ReportOf(w, s, k);
  }

  /** A report over a store of one event and no outcomes. */
  lemma ReportOf(w: seq<CostEvent>, s: State, k: EventKey) returns (q: Query, r: MetricResult)
    requires s.costs.Keys == {k} && s.outcomes == map[] && k.0 == "t"
    requires w == [s.costs[k]] && EventKeyOf(s.costs[k]) == k && InWindow(s.costs[k], 0, 10)
    ensures QueryOver(q, w, s, ATTEMPTS, "t", 0, 10) && IsReport(q, r)
  {
    q := Query(ATTEMPTS, "t", FilterBy(w, e => MatchesFilters(e, ATTEMPTS.filters)), [], None, []);
    assert CellKeys(q) == [[]];
    r := MetricResult([CellOf(q, [])], false);
    forall e ensures e in w <==> EventKeyOf(e) in s.costs && s.costs[EventKeyOf(e)] == e && e.tenant == "t" && InWindow(e, 0, 10) {
      assert EventKeyOf(e) in s.costs ==> EventKeyOf(e) in s.costs.Keys;
    }
  }

  lemma WindowOfOne(window: seq<CostEvent>, s: State, tenant: TenantId, k: EventKey, start: int, end: int)
    requires ListsEvents(window, s, tenant, start, end) && s.costs.Keys == {k} && k.0 == tenant
    requires EventKeyOf(s.costs[k]) == k && InWindow(s.costs[k], start, end)
    ensures |window| == 1
  {
    var e := s.costs[k];
    forall x ensures x in window <==> x in [e] {
      assert EventKeyOf(x) in s.costs ==> EventKeyOf(x) in s.costs.Keys;
    }
    ListingsArePermutations(window, [e]);
    PermutationElements(window, [e]);
  }

  lemma WindowOfNone(window: seq<CostEvent>, s: State, tenant: TenantId, k: EventKey, start: int, end: int)
    requires ListsEvents(window, s, tenant, start, end) && s.costs.Keys == {k} && !InWindow(s.costs[k], start, end)
    ensures window == []
  {
    forall x ensures x in window <==> x in [] {
      assert EventKeyOf(x) in s.costs ==> EventKeyOf(x) in s.costs.Keys;
    }
    ListingsArePermutations(window, []);
    PermutationElements(window, []);
  }
}
