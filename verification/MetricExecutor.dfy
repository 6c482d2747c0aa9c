/** The metric executor: the loops that compute a report, proved against its definition. */
module MetricExecutor {
  import opened Folds
  import opened Confidence
  import opened Alias
  import opened Records
  import opened Metrics

  // ----- grouping -----

  function AgentLookup(agents: map<RunId, string>, r: RunId): (agent: string) {
    if r in agents then agents[r] else UNKNOWN_AGENT
  }

  /** The agent join is right for every event wherever the plan groups by agent. */
  ghost predicate AgentsResolve(q: Query, agents: map<RunId, string>) {
    AgentName in q.plan.groupBy ==>
      forall e :: e in q.events ==> AgentLookup(agents, e.runId) == AgentOf(q.runs, e.runId)
  }

  method ResolveAgents(q: Query) returns (agents: map<RunId, string>)
    ensures AgentsResolve(q, agents)
  {
    agents := map[];
    if AgentName !in q.plan.groupBy || q.runs.None? {
      return;
    }
    var pending := set e | e in q.events :: e.runId;
    while pending != {}
      invariant forall e :: e in q.events ==> e.runId in pending || e.runId in agents
      invariant forall r :: r in agents ==> agents[r] == AgentOf(q.runs, r)
      decreases pending
    {
      var r :| r in pending;
      agents := agents[r := AgentOf(q.runs, r)];
      pending := pending - {r};
    }
  }

  method CostGroupKey(q: Query, e: CostEvent, agents: map<RunId, string>) returns (key: Key)
    requires e in q.events && AgentsResolve(q, agents)
    ensures key == CostKey(q, e, q.plan.groupBy)
  {
    key := [];
    var g := q.plan.groupBy;
    for i := 0 to |g|
      invariant key == CostKey(q, e, g[..i])
    {
      assert g[..i + 1][..i] == g[..i];
      match g[i]
      case Provider => key := key + [(g[i], e.provider)];
      case Model => key := key + [(g[i], e.model)];
      case AgentName => key := key + [(g[i], AgentLookup(agents, e.runId))];
      case Tenant => key := key + [(g[i], q.tenant)];
      case OutcomeName =>
    }
    SliceAll(g);
  }

  lemma FirstSeenPush(keys: seq<Key>, k: Key)
    ensures FirstSeen(keys + [k]) ==
            if k == [] || k in FirstSeen(keys) then FirstSeen(keys) else FirstSeen(keys) + [k]
  {
    assert (keys + [k])[..|keys|] == keys;
  }

  /** One step of the de-duplicating loop. */
  method NoteKey(keys: seq<Key>, seen: set<Key>, key: Key, ghost noted: seq<Key>)
    returns (keys': seq<Key>, seen': set<Key>)
    requires keys == FirstSeen(noted) && forall k :: k in seen <==> k in keys
    ensures keys' == FirstSeen(noted + [key]) && forall k :: k in seen' <==> k in keys'
  {
    keys', seen' := keys, seen;
    FirstSeenPush(noted, key);
    if key != [] && key !in seen {
      seen' := seen + {key};
      keys' := keys + [key];
    }
  }

  ghost predicate EventsNoted(q: Query, noted: seq<Key>) {
    |noted| >= |q.events| &&
    forall j :: 0 <= j < |q.events| ==> noted[j] == CostKey(q, q.events[j], q.plan.groupBy)
  }

  method NoteEventKeys(q: Query, agents: map<RunId, string>)
    returns (keys: seq<Key>, seen: set<Key>, ghost noted: seq<Key>)
    requires AgentsResolve(q, agents)
    ensures |noted| == |q.events| && EventsNoted(q, noted)
    ensures keys == FirstSeen(noted) && forall k :: k in seen <==> k in keys
  {
    keys, seen, noted := [], {}, [];
    for i := 0 to |q.events|
      invariant |noted| == i && forall j :: 0 <= j < i ==> noted[j] == CostKey(q, q.events[j], q.plan.groupBy)
      invariant keys == FirstSeen(noted) && forall k :: k in seen <==> k in keys
    {
      var key := CostGroupKey(q, q.events[i], agents);
      keys, seen := NoteKey(keys, seen, key, noted);
      noted := noted + [key];
    }
  }

  /** The ordered, de-duplicated groups present. */
  method GroupKeys(q: Query, agents: map<RunId, string>) returns (keys: seq<Key>)
    requires AgentsResolve(q, agents)
    ensures keys == CellKeys(q)
  {
    if q.plan.groupBy == [] {
      return [[]];
    }
    var seen;
    ghost var noted;
    keys, seen, noted := NoteEventKeys(q, agents);
    var n := |q.events|;
    for i := 0 to |q.outcomes|
      invariant |noted| == n + i && EventsNoted(q, noted)
      invariant forall j :: 0 <= j < i ==> noted[n + j] == OutcomeKey(q.outcomes[j], q.plan.groupBy)
      invariant keys == FirstSeen(noted) && forall k :: k in seen <==> k in keys
    {
      var key := OutcomeKey(q.outcomes[i], q.plan.groupBy);
      keys, seen := NoteKey(keys, seen, key, noted);
      noted := noted + [key];
    }
    assert noted == RecordKeys(q);
    if keys == [] {
      keys := [[]];
    }
  }

  // ----- producing runs -----

  /** RunRepository.list_by_entity */
  function ListByEntity(runs: map<RunId, Run>, key: EntityKey): (rs: set<RunId>) {
    set r | r in runs && key in runs[r].entityKeys
  }

  ghost predicate CarriesOneOf(runs: map<RunId, Run>, r: RunId, keys: set<EntityKey>) {
    r in runs && exists x :: x in keys && x in runs[r].entityKeys
  }

  method RunsCarrying(runs: map<RunId, Run>, keys: set<EntityKey>) returns (rs: set<RunId>)
    ensures forall r :: r in rs <==> CarriesOneOf(runs, r, keys)
  {
    rs := {};
    var pending := keys;
    while pending != {}
      invariant pending <= keys
      invariant forall r :: r in rs <==> CarriesOneOf(runs, r, keys - pending)
      decreases pending
    {
      var key :| key in pending;
      ghost var done := keys - pending;
      pending := pending - {key};
      assert keys - pending == done + {key};
      rs := rs + ListByEntity(runs, key);
    }
    assert keys - pending == keys;
  }

  method RunsForKeys(runs: map<RunId, Run>, keys: set<EntityKey>, aliases: seq<EntityAlias>) returns (rs: set<RunId>)
    ensures rs == EntityRuns(keys, Some(runs), aliases)
  {
    rs := {};
    var pending := keys;
    while pending != {}
      invariant pending <= keys
      invariant rs == EntityRuns(keys - pending, Some(runs), aliases)
      decreases pending
    {
      var key :| key in pending;
      ghost var done := keys - pending;
      pending := pending - {key};
      assert keys - pending == done + {key};
      var closure := ResolveAliases(key, aliases);
      var found := RunsCarrying(runs, closure);
      EntityRunsStep(runs, done, key, closure, found, aliases);
      rs := rs + found;
    }
    assert keys - pending == keys;
  }

  lemma EntityRunsStep(runs: map<RunId, Run>, done: set<EntityKey>, key: EntityKey,
                       closure: set<EntityKey>, found: set<RunId>, aliases: seq<EntityAlias>)
    requires forall x :: x in closure <==> SameEntity(aliases, key, x)
    requires forall r :: r in found <==> CarriesOneOf(runs, r, closure)
    ensures EntityRuns(done + {key}, Some(runs), aliases) == EntityRuns(done, Some(runs), aliases) + found
  {
    forall r | r in runs
      ensures Reaches(runs[r], done + {key}, aliases) <==> Reaches(runs[r], done, aliases) || r in found
    {
      if r in found {
        var x :| x in closure && x in runs[r].entityKeys;
        assert key in done + {key} && SameEntity(aliases, key, x);
      }
    }
  }

  /** Run ids reachable from the entity keys of the given outcomes. */
  method RunsForEntities(q: Query, outcomes: seq<OutcomeEvent>) returns (rs: set<RunId>)
    ensures forall r :: r in rs <==> exists o :: o in outcomes && r in EntityRuns(o.entityKeys, q.runs, q.aliases)
  {
    rs := {};
    if q.runs.None? {
      return;
    }
    for i := 0 to |outcomes|
      invariant forall r :: r in rs <==> exists o :: o in outcomes[..i] && r in EntityRuns(o.entityKeys, q.runs, q.aliases)
    {
      var found := RunsForKeys(q.runs.value, outcomes[i].entityKeys, q.aliases);
      SlicePush(outcomes, i);
      rs := rs + found;
    }
    SliceAll(outcomes);
  }

  function Tally(counts: map<RunId, nat>, r: RunId): (n: nat) {
    if r in counts then counts[r] else 0
  }

  /** counts[r] += 1 for every r in rs */
  function Bump(counts: map<RunId, nat>, rs: set<RunId>): (c: map<RunId, nat>)
    ensures forall r :: Tally(c, r) == Tally(counts, r) + (if r in rs then 1 else 0)
  {
    map r | r in counts.Keys + rs :: Tally(counts, r) + (if r in rs then 1 else 0)
  }

  /** The count of each run that several billing-grade outcomes share. */
  method OutcomesPerRun(q: Query) returns (shared: map<RunId, nat>)
    ensures forall r :: r in shared <==> Overlapping(q, r)
    ensures forall r :: r in shared ==> shared[r] == TimesProduced(q, r)
  {
    if !CostPerOutcome(q.plan) {
      return map[];
    }
    var counts: map<RunId, nat> := map[];
    for i := 0 to |q.outcomes|
      invariant forall r :: Tally(counts, r) == TimesIn(q, q.outcomes[..i], r)
    {
      var o := q.outcomes[i];
      ghost var before := counts;
      if ClassOf(o) == Verified {
        var found;
        if o.binding.runId.Some? {
          found := {o.binding.runId.value};
        } else {
          found := RunsForEntities(q, [o]);
        }
        assert forall r :: r in found <==> CountsFor(q, o, r);
        counts := Bump(counts, found);
      }
      SlicePush(q.outcomes, i);
      forall r
        ensures Tally(counts, r) == TimesIn(q, q.outcomes[..i + 1], r)
      {
        CountByPush(q.outcomes[..i], o, o => CountsFor(q, o, r));
      }
    }
    SliceAll(q.outcomes);
    assert forall r :: Tally(counts, r) == TimesProduced(q, r);
    shared := map r | r in counts && counts[r] > 1 :: counts[r];
    assert forall r :: r in shared <==> Tally(counts, r) > 1;
  }

  ghost predicate SharesAre(q: Query, shares: map<RunId, real>) {
    forall r :: ShareOf(q, r) == if r in shares then shares[r] else 1.0
  }

  method AttributionShares(q: Query) returns (shares: map<RunId, real>)
    ensures SharesAre(q, shares)
  {
    if OutcomeName !in q.plan.groupBy {
      return map[];
    }
    var shared := OutcomesPerRun(q);
    assert forall r :: r in shared ==> shared[r] > 1;
    shares := map r | r in shared :: 1.0 / shared[r] as real;
  }

  // ----- one cell -----

  /** The runs that produced the cell's billing-grade outcomes. */
  method ProducingRuns(q: Query, ghost key: Key, cellOutcomes: seq<OutcomeEvent>) returns (rs: set<RunId>)
    requires cellOutcomes == CellOutcomes(q, key)
    ensures forall r :: r in rs <==> Produces(q, key, r)
  {
    var direct := FilterBy(cellOutcomes, o => ClassOf(o) == Verified && o.binding.runId.Some?);
    var indirect := FilterBy(cellOutcomes, o => ClassOf(o) == Verified && o.binding.runId.None?);
    FilterByElements(q.outcomes, o => InCell(q, key, o));
    FilterByElements(cellOutcomes, o => ClassOf(o) == Verified && o.binding.runId.Some?);
    FilterByElements(cellOutcomes, o => ClassOf(o) == Verified && o.binding.runId.None?);
    rs := set o | o in direct :: o.binding.runId.value;
    var reached := RunsForEntities(q, indirect);
    ProducersSplit(q, key, direct, indirect);
    rs := rs + reached;
  }

  lemma ProducersSplit(q: Query, key: Key, direct: seq<OutcomeEvent>, indirect: seq<OutcomeEvent>)
    requires forall o :: o in direct <==> o in q.outcomes && InCell(q, key, o) && ClassOf(o) == Verified && o.binding.runId.Some?
    requires forall o :: o in indirect <==> o in q.outcomes && InCell(q, key, o) && ClassOf(o) == Verified && o.binding.runId.None?
    ensures forall r :: Produces(q, key, r) <==>
                        || (exists o :: o in direct && o.binding.runId.value == r)
                        || (exists o :: o in indirect && r in EntityRuns(o.entityKeys, q.runs, q.aliases))
  {
    forall r
      ensures Produces(q, key, r) <==>
              || (exists o :: o in direct && o.binding.runId.value == r)
              || (exists o :: o in indirect && r in EntityRuns(o.entityKeys, q.runs, q.aliases))
    {
      if Produces(q, key, r) {
        var o :| o in q.outcomes && InCell(q, key, o) && CountsFor(q, o, r);
        assert o in direct || o in indirect;
      }
    }
  }

  /** The cell's events narrowed to the producing runs, or all of them when no run is known. */
  method NumeratorEvents(q: Query, ghost key: Key, cellEvents: seq<CostEvent>, cellOutcomes: seq<OutcomeEvent>)
    returns (es: seq<CostEvent>)
    requires cellEvents == FilterBy(q.events, e => EventInCell(q, key, e))
    requires cellOutcomes == CellOutcomes(q, key)
    ensures es == FilterBy(q.events, e => InNumerator(q, key, e))
  {
    var keep := (e: CostEvent) => true;
    if CostPerOutcome(q.plan) {
      var rs := ProducingRuns(q, key, cellOutcomes);
      if rs != {} {
        keep := (e: CostEvent) => e.runId in rs;
      }
    }
    FilterTwice(q.events, e => EventInCell(q, key, e), keep, e => InNumerator(q, key, e));
    es := FilterBy(cellEvents, keep);
  }

  /** The summing loop of _numerator_value. */
  method TotalCost(q: Query, es: seq<CostEvent>, shares: map<RunId, real>) returns (total: real)
    requires SharesAre(q, shares)
    ensures total == SumBy(es, e => SplitCost(q, e))
  {
    total := 0.0;
    ghost var f := e => SplitCost(q, e);
    for i := 0 to |es|
      invariant total == SumBy(es[..i], f)
    {
      var event := es[i];
      SlicePush(es, i);
      SumByPush(es[..i], event, f);
      var share := if event.runId in shares then shares[event.runId] else 1.0;
      SplitCostIs(q, event, share);
      if event.cost.Some? {
        total := total + event.cost.value * share;
      }
    }
    SliceAll(es);
  }

  lemma SplitCostIs(q: Query, e: CostEvent, share: real)
    requires share == ShareOf(q, e.runId)
    ensures SplitCost(q, e) == if e.cost.Some? then e.cost.value * share else 0.0
  {
  }

  datatype Breakdown = Breakdown(
    verified: nat, advisory: nat, attempted: nat, retracted: nat, tiers: multiset<BindingTier>)

  ghost predicate BreaksDown(b: Breakdown, outcomes: seq<OutcomeEvent>) {
    && b.verified == CountBy(outcomes, o => ClassOf(o) == Verified)
    && b.advisory == CountBy(outcomes, o => ClassOf(o) == Advisory)
    && b.attempted == CountBy(outcomes, o => ClassOf(o) == Attempted)
    && b.retracted == CountBy(outcomes, o => ClassOf(o) == Retracted)
    && b.tiers == TierTally(outcomes)
    && b.verified + b.advisory + b.attempted + b.retracted == |outcomes|
  }

  /** One iteration of the tallying loop. */
  function AddOutcome(b: Breakdown, o: OutcomeEvent): (r: Breakdown) {
    if o.signal == ActionAttempted then b.(attempted := b.attempted + 1)
    else
      var tallied := if o.binding.tier.Some? then b.(tiers := b.tiers + multiset{o.binding.tier.value}) else b;
      if o.signal == OutcomeRetracted then tallied.(retracted := b.retracted + 1)
      else if o.binding.tier.Some? && IsBillingGrade(o.binding.tier.value) then tallied.(verified := b.verified + 1)
      else tallied.(advisory := b.advisory + 1)
  }

  lemma BreaksDownStep(b: Breakdown, outcomes: seq<OutcomeEvent>, o: OutcomeEvent)
    requires BreaksDown(b, outcomes)
    ensures BreaksDown(AddOutcome(b, o), outcomes + [o])
  {
    CountByPush(outcomes, o, o => ClassOf(o) == Verified);
    CountByPush(outcomes, o, o => ClassOf(o) == Advisory);
    CountByPush(outcomes, o, o => ClassOf(o) == Attempted);
    CountByPush(outcomes, o, o => ClassOf(o) == Retracted);
    assert (outcomes + [o])[..|outcomes|] == outcomes;
  }

  /** The honest split of a cell's outcomes: the four counts partition them. */
  method DenominatorOutcomes(outcomes: seq<OutcomeEvent>) returns (b: Breakdown)
    ensures BreaksDown(b, outcomes)
  {
    b := Breakdown(0, 0, 0, 0, multiset{});
    for i := 0 to |outcomes|
      invariant BreaksDown(b, outcomes[..i])
    {
      BreaksDownStep(b, outcomes[..i], outcomes[i]);
      SlicePush(outcomes, i);
      b := AddOutcome(b, outcomes[i]);
    }
    SliceAll(outcomes);
  }

  /** min(members, key=_CAUSAL_ORDER.index), observational when there are none. */
  function PropagateCausalEvidence(outcomes: seq<OutcomeEvent>): (c: CausalEvidence)
    ensures c == WeakestEvidence(outcomes)
  {
    if outcomes == [] then Observational
    else if |outcomes| == 1 then outcomes[0].binding.causal
    else
      var rest := PropagateCausalEvidence(outcomes[1..]);
      assert forall o :: o in outcomes <==> o == outcomes[0] || o in outcomes[1..];
      if CausalRank(outcomes[0].binding.causal) <= CausalRank(rest) then outcomes[0].binding.causal else rest
  }

  method NumeratorValue(q: Query, ghost key: Key, es: seq<CostEvent>, cellOutcomes: seq<OutcomeEvent>, shares: map<RunId, real>)
    returns (v: real)
    requires SharesAre(q, shares) && cellOutcomes == CellOutcomes(q, key)
    requires es == FilterBy(q.events, e => InNumerator(q, key, e))
    ensures v == NumeratorOf(q, key)
  {
    match q.plan.numerator
    case TotalCostUsd =>
      v := TotalCost(q, es, shares);
      SumByFilter(q.events, e => InNumerator(q, key, e), e => SplitCost(q, e), e => Charge(q, key, e));
    case AttemptCount =>
      v := |es| as real;
      FilterCount(q.events, e => InNumerator(q, key, e));
    case _ =>
      v := ConfirmedOf(cellOutcomes) as real;
      ConfirmedInCell(q, key);
  }

  function ConfirmedOf(outcomes: seq<OutcomeEvent>): (n: nat) {
    |FilterBy(outcomes, (o: OutcomeEvent) => o.signal == OutcomeConfirmed)|
  }

  lemma ConfirmedInCell(q: Query, key: Key)
    ensures ConfirmedOf(CellOutcomes(q, key)) == ConfirmedCount(q, key)
  {
    FilterCount(CellOutcomes(q, key), (o: OutcomeEvent) => o.signal == OutcomeConfirmed);
    CountByFilter(q.outcomes, o => InCell(q, key, o), (o: OutcomeEvent) => o.signal == OutcomeConfirmed,
                  o => InCell(q, key, o) && o.signal == OutcomeConfirmed);
  }

  lemma ClassInCell(q: Query, key: Key, c: OutcomeClass)
    ensures CountBy(CellOutcomes(q, key), o => ClassOf(o) == c) == ClassCount(q, key, c)
  {
    CountByFilter(q.outcomes, o => InCell(q, key, o), o => ClassOf(o) == c, o => InCell(q, key, o) && ClassOf(o) == c);
  }

  method DenominatorValue(q: Query, ghost key: Key, cellEvents: seq<CostEvent>, cellOutcomes: seq<OutcomeEvent>, b: Breakdown)
    returns (v: nat)
    requires cellEvents == FilterBy(q.events, e => EventInCell(q, key, e))
    requires cellOutcomes == CellOutcomes(q, key) && b.verified == ClassCount(q, key, Verified)
    ensures v == DenominatorOf(q, key)
  {
    match q.plan.denominator
    case VerifiedOutcomeCount =>
      v := b.verified;
    case OutcomeCount =>
      v := ConfirmedOf(cellOutcomes);
      ConfirmedInCell(q, key);
    case _ =>
      v := |cellEvents|;
      FilterCount(q.events, e => EventInCell(q, key, e));
  }

  /** _confidence: propagate over the tallied tiers, or the least trusted tier when there are none. */
  function ConfidenceFrom(tiers: multiset<BindingTier>): (c: RollupConfidence)
    ensures c == TierConfidence(tiers) && Valid(c)
  {
    if tiers == multiset{} then RollupConfidence(Likely, map[Likely := 1])
    else
      ConfidenceReports(tiers);
      ConfidenceOf(tiers)
  }

  method EventsInCell(q: Query, key: Key, agents: map<RunId, string>) returns (es: seq<CostEvent>)
    requires AgentsResolve(q, agents)
    ensures es == FilterBy(q.events, e => EventInCell(q, key, e))
  {
    es := [];
    for i := 0 to |q.events|
      invariant es == FilterBy(q.events[..i], e => EventInCell(q, key, e))
    {
      var record := CostGroupKey(q, q.events[i], agents);
      FilterByPush(q.events[..i], q.events[i], e => EventInCell(q, key, e));
      SlicePush(q.events, i);
      if MatchesKey(record, key) {
        es := es + [q.events[i]];
      }
    }
    SliceAll(q.events);
  }

  method BuildCell(q: Query, key: Key, agents: map<RunId, string>, shares: map<RunId, real>, overlapping: map<RunId, nat>)
    returns (cell: MetricCell)
    requires AgentsResolve(q, agents) && SharesAre(q, shares)
    requires forall r :: r in overlapping <==> Overlapping(q, r)
    ensures cell == CellOf(q, key)
  {
    var cellEvents := EventsInCell(q, key, agents);
    var cellOutcomes := FilterBy(q.outcomes, o => InCell(q, key, o));
    var numeratorEvents := NumeratorEvents(q, key, cellEvents, cellOutcomes);
    var numerator := NumeratorValue(q, key, numeratorEvents, cellOutcomes, shares);
    var breakdown := DenominatorOutcomes(cellOutcomes);
    ClassInCell(q, key, Verified);
    ClassInCell(q, key, Advisory);
    ClassInCell(q, key, Retracted);
    var denominator := DenominatorValue(q, key, cellEvents, cellOutcomes, breakdown);
    var shared := FilterBy(numeratorEvents, (e: CostEvent) => e.runId in overlapping);
    FilterCount(numeratorEvents, (e: CostEvent) => e.runId in overlapping);
    CountByFilter(q.events, e => InNumerator(q, key, e), (e: CostEvent) => e.runId in overlapping,
                  e => InNumerator(q, key, e) && Overlapping(q, e.runId));
    cell := MetricCell(key, numerator, denominator, RatioOf(numerator, denominator),
                       ConfidenceFrom(breakdown.tiers), breakdown.advisory, breakdown.retracted, |shared|,
                       PropagateCausalEvidence(cellOutcomes));
  }

  ghost predicate CellsFor(q: Query, keys: seq<Key>, cells: seq<MetricCell>) {
    |cells| == |keys| && forall j :: 0 <= j < |keys| ==> cells[j] == CellOf(q, keys[j])
  }

  predicate AnyRetracted(cells: seq<MetricCell>) {
    exists j :: 0 <= j < |cells| && cells[j].retractedExcluded > 0
  }

  /** The loop over the groups. */
  method BuildCells(q: Query, keys: seq<Key>, agents: map<RunId, string>) returns (result: MetricResult)
    requires AgentsResolve(q, agents)
    ensures CellsFor(q, keys, result.cells) && (result.requiresReemit <==> AnyRetracted(result.cells))
  {
    var shares := AttributionShares(q);
    var overlapping := OutcomesPerRun(q);
    var cells: seq<MetricCell> := [];
    var requiresReemit := false;
    for i := 0 to |keys|
      invariant CellsFor(q, keys[..i], cells)
      invariant requiresReemit <==> AnyRetracted(cells)
    {
      var cell := BuildCell(q, keys[i], agents, shares, overlapping);
      CellsForPush(q, keys[..i], cells, keys[i], cell);
      SlicePush(keys, i);
      if cell.retractedExcluded > 0 {
        requiresReemit := true;
      }
      cells := cells + [cell];
    }
    SliceAll(keys);
    result := MetricResult(cells, requiresReemit);
  }

  lemma CellsForPush(q: Query, keys: seq<Key>, cells: seq<MetricCell>, key: Key, cell: MetricCell)
    requires CellsFor(q, keys, cells) && cell == CellOf(q, key)
    ensures CellsFor(q, keys + [key], cells + [cell])
    ensures AnyRetracted(cells + [cell]) <==> AnyRetracted(cells) || cell.retractedExcluded > 0
  {
    if AnyRetracted(cells) {
      var j :| 0 <= j < |cells| && cells[j].retractedExcluded > 0;
      assert (cells + [cell])[j].retractedExcluded > 0;
    }
    if cell.retractedExcluded > 0 {
      assert (cells + [cell])[|cells|].retractedExcluded > 0;
    }
  }

  /** Run a plan over the events a window lists: one cell per group, in group order. */
  method RunPlan(plan: Plan, tenant: TenantId, window: seq<CostEvent>, outcomes: seq<OutcomeEvent>,
                 runs: Option<map<RunId, Run>>, aliases: seq<EntityAlias>)
    returns (q: Query, result: MetricResult)
    ensures q == Query(plan, tenant, FilterBy(window, e => MatchesFilters(e, plan.filters)), outcomes, runs, aliases)
    ensures IsReport(q, result)
  {
    q := Query(plan, tenant, FilterBy(window, e => MatchesFilters(e, plan.filters)), outcomes, runs, aliases);
    var agents := ResolveAgents(q);
    var keys := GroupKeys(q, agents);
    result := BuildCells(q, keys, agents);
  }
}
