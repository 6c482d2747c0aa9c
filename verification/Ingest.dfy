/**
 * Ingest and binding as one state machine over the run table, the cost store, the outcome
 * store and the review queue. Deliveries arrive at least once and in any order.
 */
module Ingest {
  import opened Confidence
  import opened Alias
  import opened Records
  import opened Text

  type RunTable = map<(TenantId, RunId), Run>

  // ----- deliveries -----

  /** What span_to_cost_event decodes from a span's attributes, besides its run id. */
  datatype SpanPayload = SpanPayload(
    attemptId: string, provider: string, model: string, tokens: seq<nat>, inlineCost: Option<real>)

  /** One OTLP span; the payload is absent when its token counts are rejected. */
  datatype Span = Span(
    genAiSystem: string, llmSystem: string, llmProvider: string, runId: RunId,
    payload: Option<SpanPayload>, agentName: Option<string>, entityKeys: set<EntityKey>)

  /** The backend's clock as read while one span is ingested: for its price, its event, its run row. */
  datatype Reading = Reading(pricedAt: int, occurredAt: int, startedAt: int)

  /** A span as it arrives; each redelivery is read at another time. */
  datatype Arrival = Arrival(span: Span, clock: Reading)

  /** The computed price of a payload at a time; None when no card prices it. */
  type PriceBook = (SpanPayload, int) -> Option<real>

  /** A framework rollup span resolves no provider and is not an attempt. */
  predicate IsRollup(s: Span) {
    s.genAiSystem == "" && s.llmSystem == "" && s.llmProvider == ""
  }

  /** An inline cost is used as it is; otherwise the price card of the moment decides. */
  function SpanCost(book: PriceBook, p: SpanPayload, at: int): (c: Option<real>) {
    if p.inlineCost.Some? then p.inlineCost else book(p, at)
  }

  function SpanEvent(book: PriceBook, tenant: TenantId, a: Arrival): (e: CostEvent)
    requires a.span.payload.Some?
  {
    var p := a.span.payload.value;
    CostEvent(tenant, a.span.runId, p.attemptId, p.provider, p.model, SpanCost(book, p, a.clock.pricedAt),
              a.clock.occurredAt)
  }

  function SpanRun(tenant: TenantId, a: Arrival): (r: Run) {
    Run(tenant, a.span.runId, a.span.agentName, a.clock.startedAt, a.span.entityKeys)
  }

  /** Transport-borne signals of one request; `active` is the live ambient context, if any. */
  datatype Signals = Signals(baggage: Option<string>, echoed: Option<RunId>, active: Option<RunId>)

  /** A bind_outcome request: the event carries the caller's run id in its binding. */
  datatype Call = Call(outcome: OutcomeEvent, signals: Signals)

  datatype Delivery = Spans(tenant: TenantId, arrivals: seq<Arrival>) | Outcome(call: Call)

  // ----- stores -----

  type EventKey = (TenantId, RunId, string)

  datatype IdempotencyKey = ByCorrelation(correlation: string) | BySource(source: string, id: string)

  type Slot = (TenantId, IdempotencyKey)

  function EventKeyOf(e: CostEvent): (k: EventKey) {
    (e.tenant, e.runId, e.attemptId)
  }

  function SlotOf(o: OutcomeEvent): (s: Slot) {
    (o.tenant, if o.correlationId.Some? then ByCorrelation(o.correlationId.value) else BySource(o.source, o.id))
  }

  datatype RunCandidate = RunCandidate(runId: RunId, tier: BindingTier, score: real)

  datatype AttributionResult = AttributionResult(
    tenant: TenantId, outcomeId: string, runId: Option<RunId>, tier: Option<BindingTier>,
    boundBy: Option<string>, candidates: seq<RunCandidate>, reviewRequired: bool)

  datatype State = State(
    runs: RunTable, costs: map<EventKey, CostEvent>, outcomes: map<Slot, OutcomeEvent>,
    queue: seq<AttributionResult>)

  const EMPTY := State(map[], map[], map[], [])

  predicate Billing(tier: Option<BindingTier>) {
    tier.Some? && IsBillingGrade(tier.value)
  }

  // ----- resolvers -----

  datatype ResolveOutcome = ResolveOutcome(candidates: seq<RunCandidate>, ambiguous: bool)

  /**
   * What the deployment supplies: entity and semantic resolvers, whatever they look up (only their
   * tier is checked), and a price book.
   */
  datatype Environment = Environment(
    entity: (RunTable, OutcomeEvent) -> ResolveOutcome,
    semantic: (RunTable, OutcomeEvent) -> ResolveOutcome,
    price: PriceBook)

  /** Resolver.resolve: None is the honesty violation of a candidate with a foreign tier. */
  function Resolve(inner: ResolveOutcome, own: BindingTier): (r: Option<ResolveOutcome>)
    ensures r.Some? <==> forall c :: c in inner.candidates ==> c.tier == own
    ensures r.Some? ==> r.value == inner
  {
    if forall c :: c in inner.candidates ==> c.tier == own then Some(inner) else None
  }

  // ----- registration -----

  /** The transport's run id; an echo wins over baggage. */
  function CarriedRunId(signals: Signals): (r: Option<RunId>) {
    if signals.echoed.Some? then signals.echoed
    else if signals.baggage.Some? && signals.baggage.value != "" then signals.baggage
    else None
  }

  /** The run id registered on first sight: the body's if non-empty, else the transport's. */
  function Registered(c: Call): (r: Option<RunId>) {
    var body := c.outcome.binding.runId;
    if body.Some? && body.value != "" then body else CarriedRunId(c.signals)
  }

  function CallRun(c: Call, r: RunId): (run: Run) {
    Run(c.outcome.tenant, r, None, c.outcome.occurredAt, c.outcome.entityKeys)
  }

  function EnsureRun(runs: RunTable, c: Call): (t: RunTable) {
    var r := Registered(c);
    if r.None? || (c.outcome.tenant, r.value) in runs then runs
    else runs[(c.outcome.tenant, r.value) := CallRun(c, r.value)]
  }

  // ----- the cascade -----

  datatype Signal = Signal(runId: Option<RunId>, tier: BindingTier, name: string)

  /** T1 ambient, T2 baggage, T3 round trip, in the order the cascade tries them. */
  function SignalsOf(c: Call): (ss: seq<Signal>)
    ensures |ss| == 3
    ensures forall i :: 0 <= i < |ss| ==> IsBillingGrade(ss[i].tier)
  {
    var body, b := c.outcome.binding.runId, c.signals.baggage;
    [
      Signal(if body.Some? then body else c.signals.active, Exact, "AmbientContextResolver"),
      Signal(if b.Some? && !Blank(PythonSpace, b.value) then b else None, Exact, "BaggageResolver"),
      Signal(c.signals.echoed, Deterministic, "RoundTripResolver")
    ]
  }

  predicate Known(runs: RunTable, tenant: TenantId, s: Signal) {
    s.runId.Some? && (tenant, s.runId.value) in runs
  }

  /** The first signal that names a run the table has; dangling ids are passed over. */
  function FirstKnown(runs: RunTable, tenant: TenantId, ss: seq<Signal>): (r: Option<Signal>)
    ensures r.Some? ==> r.value in ss && Known(runs, tenant, r.value)
    ensures r.None? ==> forall s :: s in ss ==> !Known(runs, tenant, s)
  {
    if ss == [] then None
    else if Known(runs, tenant, ss[0]) then Some(ss[0])
    else FirstKnown(runs, tenant, ss[1..])
  }

  function BoundResult(c: Call, s: Signal): (r: AttributionResult)
    requires s.runId.Some?
  {
    AttributionResult(c.outcome.tenant, c.outcome.id, s.runId, Some(s.tier), Some(s.name),
                      [RunCandidate(s.runId.value, s.tier, 1.0)], false)
  }

  /** max(candidates, key=score): the first of the highest-scored. */
  function TopCandidate(cs: seq<RunCandidate>): (top: RunCandidate)
    requires cs != []
    ensures top in cs && forall c :: c in cs ==> c.score <= top.score
  {
    if |cs| == 1 then cs[0]
    else
      var rest := TopCandidate(cs[1..]);
      assert forall c :: c in cs <==> c == cs[0] || c in cs[1..];
      if cs[0].score >= rest.score then cs[0] else rest
  }

  function AdvisoryResult(c: Call, found: ResolveOutcome, resolver: string): (r: AttributionResult)
    requires found.candidates != []
  {
    if found.ambiguous then
      AttributionResult(c.outcome.tenant, c.outcome.id, None, None, Some(resolver), found.candidates, true)
    else
      var top := TopCandidate(found.candidates);
      AttributionResult(c.outcome.tenant, c.outcome.id, Some(top.runId), Some(top.tier), Some(resolver), found.candidates, true)
  }

  /** T4 then T5, else unbound; None when a resolver emitted a foreign tier. */
  function BindAdvisory(env: Environment, runs: RunTable, c: Call): (r: Option<AttributionResult>)
    ensures r.Some? ==> r.value.reviewRequired && !Billing(r.value.tier)
    ensures r.Some? ==> r.value.tenant == c.outcome.tenant && r.value.outcomeId == c.outcome.id
  {
    var entity := Resolve(env.entity(runs, c.outcome), BindingTier.Candidate);
    if entity.None? then None
    else if entity.value.candidates != [] then Some(AdvisoryResult(c, entity.value, "EntityMatchResolver"))
    else
      var semantic := Resolve(env.semantic(runs, c.outcome), Likely);
      if semantic.None? then None
      else if semantic.value.candidates != [] then Some(AdvisoryResult(c, semantic.value, "SemanticInferenceResolver"))
      else Some(AttributionResult(c.outcome.tenant, c.outcome.id, None, None, None, [], true))
  }

  /** Cascade.bind over a run table. */
  function Decide(env: Environment, runs: RunTable, c: Call): (r: Option<AttributionResult>) {
    var first := FirstKnown(runs, c.outcome.tenant, SignalsOf(c));
    if first.Some? then Some(BoundResult(c, first.value)) else BindAdvisory(env, runs, c)
  }

  function Persisted(o: OutcomeEvent, r: AttributionResult): (p: OutcomeEvent) {
    o.(binding := OutcomeBinding(r.runId, r.tier, r.boundBy, Observational))
  }

  // ----- steps -----

  /** bind_outcome: register, decide, enqueue what needs review, persist. */
  function BindStep(env: Environment, s: State, c: Call): (t: State) {
    var runs := EnsureRun(s.runs, c);
    Stored(s, runs, c, Decide(env, runs, c))
  }

  /** The state after a decision: None, the honesty violation, stores and enqueues nothing. */
  function Stored(s: State, runs: RunTable, c: Call, r: Option<AttributionResult>): (t: State) {
    if r.None? then s.(runs := runs)
    else s.(runs := runs,
            outcomes := s.outcomes[SlotOf(c.outcome) := Persisted(c.outcome, r.value)],
            queue := if r.value.reviewRequired then s.queue + [r.value] else s.queue)
  }

  /** One span of a collector batch; rollups are skipped and an empty run id is not registered. */
  function SpanStep(book: PriceBook, s: State, tenant: TenantId, a: Arrival): (t: State)
    requires !Rejected(a.span)
  {
    if IsRollup(a.span) then s
    else
      var e := SpanEvent(book, tenant, a);
      s.(costs := s.costs[EventKeyOf(e) := e],
         runs := if a.span.runId == "" then s.runs else s.runs[(tenant, a.span.runId) := SpanRun(tenant, a)])
  }

  predicate Rejected(span: Span) {
    !IsRollup(span) && span.payload.None?
  }

  /** A batch up to its first rejected span, which raises and abandons the rest. */
  function BatchStep(book: PriceBook, s: State, tenant: TenantId, arrivals: seq<Arrival>): (t: State)
    decreases |arrivals|
  {
    if arrivals == [] || Rejected(arrivals[0].span) then s
    else BatchStep(book, SpanStep(book, s, tenant, arrivals[0]), tenant, arrivals[1..])
  }

  /** A decodable attempt: what a span must be to be persisted. */
  predicate IsAttempt(a: Arrival) {
    !IsRollup(a.span) && a.span.payload.Some?
  }

  /** The attempts a batch persists: those before its first rejected span. */
  function Ingested(arrivals: seq<Arrival>): (r: seq<Arrival>)
    ensures forall a :: a in r ==> IsAttempt(a) && a in arrivals
  {
    if arrivals == [] || Rejected(arrivals[0].span) then []
    else (if IsRollup(arrivals[0].span) then [] else [arrivals[0]]) + Ingested(arrivals[1..])
  }

  function Step(env: Environment, s: State, d: Delivery): (t: State) {
    match d
    case Spans(tenant, arrivals) => BatchStep(env.price, s, tenant, arrivals)
    case Outcome(call) => BindStep(env, s, call)
  }

  function RunAll(env: Environment, s: State, ds: seq<Delivery>): (t: State) {
    if ds == [] then s else Step(env, RunAll(env, s, ds[..|ds| - 1]), ds[|ds| - 1])
  }

  // ----- a batch is what it persists -----

  lemma {:induction false} IngestedAttempts(arrivals: seq<Arrival>)
    requires forall a :: a in arrivals ==> IsAttempt(a)
    ensures Ingested(arrivals) == arrivals
  {
    if arrivals != [] {
      assert arrivals[0] in arrivals;
      IngestedAttempts(arrivals[1..]);
      assert arrivals == [arrivals[0]] + arrivals[1..];
    }
  }

  /** Rollups and everything from a rejected span on leave no trace. */
  lemma {:induction false} BatchIsWhatItPersists(book: PriceBook, s: State, tenant: TenantId, arrivals: seq<Arrival>)
    ensures BatchStep(book, s, tenant, arrivals) == BatchStep(book, s, tenant, Ingested(arrivals))
    decreases |arrivals|
  {
    if arrivals != [] && !Rejected(arrivals[0].span) {
      var t, rest := SpanStep(book, s, tenant, arrivals[0]), Ingested(arrivals[1..]);
      BatchIsWhatItPersists(book, t, tenant, arrivals[1..]);
      if !IsRollup(arrivals[0].span) {
        assert ([arrivals[0]] + rest)[1..] == rest;
      } else {
        assert [] + rest == rest;
      }
    }
  }

  lemma {:induction false} BatchKeepsOutcomes(book: PriceBook, s: State, tenant: TenantId, arrivals: seq<Arrival>)
    ensures BatchStep(book, s, tenant, arrivals).outcomes == s.outcomes
    decreases |arrivals|
  {
    if arrivals != [] && !Rejected(arrivals[0].span) {
      BatchKeepsOutcomes(book, SpanStep(book, s, tenant, arrivals[0]), tenant, arrivals[1..]);
    }
  }

  // ----- what every reachable state satisfies -----

  ghost predicate Pending(s: State, o: OutcomeEvent) {
    exists i :: 0 <= i < |s.queue| && s.queue[i].tenant == o.tenant && s.queue[i].outcomeId == o.id &&
                s.queue[i].reviewRequired && !Billing(s.queue[i].tier)
  }

  /** A billing-grade outcome names a run of its own tenant; every other one awaits review. */
  ghost predicate Honest(s: State, o: OutcomeEvent) {
    if Billing(o.binding.tier)
    then o.binding.runId.Some? && (o.tenant, o.binding.runId.value) in s.runs
    else Pending(s, o)
  }

  ghost predicate Safe(s: State) {
    && (forall slot :: slot in s.outcomes ==> SlotOf(s.outcomes[slot]) == slot && Honest(s, s.outcomes[slot]))
    && (forall k :: k in s.costs ==> EventKeyOf(s.costs[k]) == k)
    && (forall i :: 0 <= i < |s.queue| ==> s.queue[i].reviewRequired && !Billing(s.queue[i].tier))
  }

  /** Nothing is forgotten: run rows stay present and review items stay pending. */
  ghost predicate Extends(s: State, t: State) {
    s.runs.Keys <= t.runs.Keys && s.queue <= t.queue
  }

  lemma HonestyPersists(s: State, t: State, o: OutcomeEvent)
    requires Extends(s, t) && Honest(s, o)
    ensures Honest(t, o)
  {
    if Billing(o.binding.tier) {
      assert (o.tenant, o.binding.runId.value) in s.runs.Keys;
    } else {
      var i :| 0 <= i < |s.queue| && s.queue[i].tenant == o.tenant && s.queue[i].outcomeId == o.id &&
               s.queue[i].reviewRequired && !Billing(s.queue[i].tier);
      assert t.queue[i] == s.queue[i];
    }
  }

  /** At each bind, review required, not billing-grade and enqueued by this step coincide. */
  lemma BindCoincidence(env: Environment, s: State, c: Call)
    ensures var r, t := Decide(env, EnsureRun(s.runs, c), c), BindStep(env, s, c);
            && (r.None? ==> t.outcomes == s.outcomes && t.queue == s.queue)
            && (r.Some? ==> (r.value.reviewRequired <==> !Billing(r.value.tier)))
            && (r.Some? ==> (r.value.reviewRequired <==> t.queue == s.queue + [r.value]))
            && (r.Some? ==> (!r.value.reviewRequired <==> t.queue == s.queue))
            && (r.Some? ==> t.outcomes[SlotOf(c.outcome)].binding.tier == r.value.tier)
  {
    var r := Decide(env, EnsureRun(s.runs, c), c);
    if r.Some? {
      assert |s.queue + [r.value]| == |s.queue| + 1;
    }
  }

  lemma BindExtends(env: Environment, s: State, c: Call)
    ensures Extends(s, BindStep(env, s, c))
  {
  }

  lemma BindIsSafe(env: Environment, s: State, c: Call)
    requires Safe(s)
    ensures Safe(BindStep(env, s, c))
  {
    var t := BindStep(env, s, c);
    BindExtends(env, s, c);
    forall slot | slot in t.outcomes
      ensures SlotOf(t.outcomes[slot]) == slot && Honest(t, t.outcomes[slot])
    {
      var r := Decide(env, EnsureRun(s.runs, c), c);
      if slot == SlotOf(c.outcome) && r.Some? {
        if r.value.reviewRequired {
          assert t.queue[|s.queue|] == r.value;
        }
      } else {
        HonestyPersists(s, t, s.outcomes[slot]);
      }
    }
  }

  lemma {:induction false} BatchIsSafe(book: PriceBook, s: State, tenant: TenantId, arrivals: seq<Arrival>)
    requires Safe(s)
    ensures Safe(BatchStep(book, s, tenant, arrivals)) && Extends(s, BatchStep(book, s, tenant, arrivals))
    decreases |arrivals|
  {
    if arrivals != [] && !Rejected(arrivals[0].span) {
      var t := SpanStep(book, s, tenant, arrivals[0]);
      assert Extends(s, t);
      forall slot | slot in t.outcomes
        ensures SlotOf(t.outcomes[slot]) == slot && Honest(t, t.outcomes[slot])
      {
        HonestyPersists(s, t, s.outcomes[slot]);
      }
      BatchIsSafe(book, t, tenant, arrivals[1..]);
    }
  }

  /** Safety over whole runs: every reachable state is safe, for all resolvers and deliveries. */
  lemma {:induction false} ReachableStatesAreSafe(env: Environment, ds: seq<Delivery>)
    ensures Safe(RunAll(env, EMPTY, ds))
  {
    if ds != [] {
      var front, last := ds[..|ds| - 1], ds[|ds| - 1];
      ReachableStatesAreSafe(env, front);
      var s := RunAll(env, EMPTY, front);
      match last
      case Spans(tenant, arrivals) => BatchIsSafe(env.price, s, tenant, arrivals);
      case Outcome(call) => BindIsSafe(env, s, call);
    }
  }

  // ----- tenants are isolated -----

  function TenantOf(d: Delivery): (t: TenantId) {
    match d
    case Spans(tenant, _) => tenant
    case Outcome(call) => call.outcome.tenant
  }

  /** What one tenant can read is the same in both states. */
  ghost predicate SameForTenant(s: State, t: State, tenant: TenantId) {
    && (forall r: RunId :: (tenant, r) in s.runs <==> (tenant, r) in t.runs)
    && (forall r: RunId :: (tenant, r) in s.runs && (tenant, r) in t.runs ==> s.runs[(tenant, r)] == t.runs[(tenant, r)])
    && (forall k: EventKey :: k.0 == tenant ==> (k in s.costs <==> k in t.costs))
    && (forall k: EventKey :: k.0 == tenant && k in s.costs && k in t.costs ==> s.costs[k] == t.costs[k])
    && (forall k: Slot :: k.0 == tenant ==> (k in s.outcomes <==> k in t.outcomes))
    && (forall k: Slot :: k.0 == tenant && k in s.outcomes && k in t.outcomes ==> s.outcomes[k] == t.outcomes[k])
    && QueueFor(s.queue, tenant) == QueueFor(t.queue, tenant)
  }

  function QueueFor(queue: seq<AttributionResult>, tenant: TenantId): (q: seq<AttributionResult>) {
    if queue == [] then []
    else QueueFor(queue[..|queue| - 1], tenant) +
         (if queue[|queue| - 1].tenant == tenant then [queue[|queue| - 1]] else [])
  }

  lemma {:induction false} BatchIsIsolated(book: PriceBook, s: State, owner: TenantId, arrivals: seq<Arrival>,
                                           tenant: TenantId)
    requires owner != tenant
    ensures SameForTenant(s, BatchStep(book, s, owner, arrivals), tenant)
    decreases |arrivals|
  {
    if arrivals != [] && !Rejected(arrivals[0].span) {
      BatchIsIsolated(book, SpanStep(book, s, owner, arrivals[0]), owner, arrivals[1..], tenant);
    }
  }

  /** A delivery for one tenant leaves every other tenant's view untouched. */
  lemma TenantIsolation(env: Environment, s: State, d: Delivery, tenant: TenantId)
    requires TenantOf(d) != tenant
    ensures SameForTenant(s, Step(env, s, d), tenant)
  {
    match d
    case Spans(owner, arrivals) => BatchIsIsolated(env.price, s, owner, arrivals, tenant);
    case Outcome(c) => StoreIsIsolated(s, EnsureRun(s.runs, c), c, Decide(env, EnsureRun(s.runs, c), c), tenant);
  }

  lemma StoreIsIsolated(s: State, runs: RunTable, c: Call, r: Option<AttributionResult>, tenant: TenantId)
    requires runs == EnsureRun(s.runs, c) && c.outcome.tenant != tenant
    requires r.Some? ==> r.value.tenant == c.outcome.tenant
    ensures SameForTenant(s, Stored(s, runs, c, r), tenant)
  {
    if r.Some? {
      QueueForPush(s.queue, r.value, tenant);
    }
  }

  lemma QueueForPush(queue: seq<AttributionResult>, r: AttributionResult, tenant: TenantId)
    ensures QueueFor(queue + [r], tenant) == QueueFor(queue, tenant) + (if r.tenant == tenant then [r] else [])
  {
    assert (queue + [r])[..|queue|] == queue;
  }
}
