/** Delivery order, batching and redelivery: what they cannot change. */
module IngestOrder {
  import opened Confidence
  import opened Records
  import opened Text
  import opened Ingest

  // ----- when one call's binding is settled by the call alone -----

  /** The first deterministic signal the call carries, in cascade order. */
  function FirstSignal(c: Call): (s: Option<Signal>) {
    FirstPresent(SignalsOf(c))
  }

  function FirstPresent(ss: seq<Signal>): (r: Option<Signal>)
    ensures r.Some? ==> r.value in ss && r.value.runId.Some?
  {
    if ss == [] then None else if ss[0].runId.Some? then Some(ss[0]) else FirstPresent(ss[1..])
  }

  /** The signal the cascade tries first is the one that registration makes present. */
  predicate Decisive(c: Call) {
    FirstSignal(c).Some? && FirstSignal(c).value.runId == Registered(c)
  }

  lemma {:induction false} FirstPresentWins(runs: RunTable, tenant: TenantId, ss: seq<Signal>)
    requires FirstPresent(ss).Some? && Known(runs, tenant, FirstPresent(ss).value)
    ensures FirstKnown(runs, tenant, ss) == FirstPresent(ss)
  {
    if ss[0].runId.None? {
      FirstPresentWins(runs, tenant, ss[1..]);
    }
  }

  /** What a decisive call is stored as, whatever was delivered before it. */
  function Settled(c: Call): (o: OutcomeEvent)
    requires Decisive(c)
  {
    Persisted(c.outcome, BoundResult(c, FirstSignal(c).value))
  }

  lemma DecisiveBind(env: Environment, s: State, c: Call)
    requires Decisive(c)
    ensures BindStep(env, s, c) == s.(runs := EnsureRun(s.runs, c), outcomes := s.outcomes[SlotOf(c.outcome) := Settled(c)])
  {
    FirstPresentWins(EnsureRun(s.runs, c), c.outcome.tenant, SignalsOf(c));
  }

  /** The decision is the same over every run table. */
  ghost predicate StateFree(env: Environment, c: Call) {
    forall a: RunTable, b: RunTable :: Decide(env, EnsureRun(a, c), c) == Decide(env, EnsureRun(b, c), c)
  }

  /**
   * For a call that carries a deterministic signal, its binding is independent of what was
   * delivered before if and only if the first signal is the registered run id.
   */
  lemma StateFreeIffDecisive(env: Environment, c: Call)
    requires FirstSignal(c).Some?
    ensures StateFree(env, c) <==> Decisive(c)
  {
    var first, tenant := FirstSignal(c).value, c.outcome.tenant;
    if Decisive(c) {
      forall a: RunTable, b: RunTable
        ensures Decide(env, EnsureRun(a, c), c) == Decide(env, EnsureRun(b, c), c)
      {
        FirstPresentWins(EnsureRun(a, c), tenant, SignalsOf(c));
        FirstPresentWins(EnsureRun(b, c), tenant, SignalsOf(c));
      }
    } else {
      var seen: RunTable := map[(tenant, first.runId.value) := CallRun(c, first.runId.value)];
      FirstPresentWins(EnsureRun(seen, c), tenant, SignalsOf(c));
      var unseen := EnsureRun(map[], c);
      assert (tenant, first.runId.value) !in unseen;
      var known := FirstKnown(unseen, tenant, SignalsOf(c));
      assert known.Some? ==> known.value.runId != first.runId;
      assert Decide(env, EnsureRun(seen, c), c) != Decide(env, unseen, c);
    }
  }

  /** The ordering promise fails when baggage and echo name different runs. */
  lemma ConflictingSignalsDependOnOrder(env: Environment) returns (span: Delivery, call: Delivery)
    ensures RunAll(env, EMPTY, [span, call]).outcomes != RunAll(env, EMPTY, [call, span]).outcomes
  {
    var a := PlainArrival("b", "1", None, 0);
    var binding := OutcomeBinding(None, None, None, Observational);
    var o := OutcomeEvent("t", "o", "booked", OutcomeConfirmed, 0, binding, {}, None, "s");
    var c := Call(o, Signals(Some("b"), Some("e"), None));
    span, call := Spans("t", [a]), Outcome(c);
    var ambient, baggage, echo := SignalsOf(c)[0], SignalsOf(c)[1], SignalsOf(c)[2];
    assert SignalsOf(c) == [ambient, baggage, echo];
    assert !PythonSpace("b"[0]);
    RunTwo(env, span, call);
    RunTwo(env, call, span);
    var early, late := SpanStep(env.price, EMPTY, "t", a), BindStep(env, EMPTY, c);
    OneSpanBatch(env.price, EMPTY, "t", a);
    OneSpanBatch(env.price, late, "t", a);
    FirstOfThree(EnsureRun(early.runs, c), "t", ambient, baggage, echo);
    FirstOfThree(EnsureRun(EMPTY.runs, c), "t", ambient, baggage, echo);
    assert BindStep(env, early, c).outcomes[SlotOf(o)].binding.runId == Some("b");
    assert late.outcomes[SlotOf(o)].binding.runId == Some("e");
    assert SpanStep(env.price, late, "t", a).outcomes == late.outcomes;
  }

  /** An OpenAI attempt with an inline cost of one dollar, read at one moment. */
  function PlainArrival(runId: RunId, attemptId: string, agent: Option<string>, now: int): (a: Arrival)
    ensures !Rejected(a.span) && !IsRollup(a.span)
  {
    assert |"openai"| == 6;
    Arrival(Span("openai", "", "", runId, Some(SpanPayload(attemptId, "openai", "m", [], Some(1.0))), agent, {}),
            Reading(now, now, now))
  }

  lemma RunTwo(env: Environment, a: Delivery, b: Delivery)
    ensures RunAll(env, EMPTY, [a, b]) == Step(env, Step(env, EMPTY, a), b)
  {
    assert [a, b][..1] == [a] && [a][..0] == [];
    assert RunAll(env, EMPTY, [a]) == Step(env, EMPTY, a);
  }

  lemma OneSpanBatch(book: PriceBook, s: State, tenant: TenantId, x: Arrival)
    requires !Rejected(x.span)
    ensures BatchStep(book, s, tenant, [x]) == SpanStep(book, s, tenant, x)
  {
    assert BatchStep(book, SpanStep(book, s, tenant, x), tenant, []) == SpanStep(book, s, tenant, x);
  }

  lemma FirstOfThree(runs: RunTable, tenant: TenantId, a: Signal, b: Signal, c: Signal)
    ensures FirstKnown(runs, tenant, [a, b, c]) ==
            if Known(runs, tenant, a) then Some(a) else if Known(runs, tenant, b) then Some(b)
            else if Known(runs, tenant, c) then Some(c) else None
  {
    assert [a, b, c][1..] == [b, c] && [b, c][1..] == [c];
    assert FirstKnown(runs, tenant, [c]) == if Known(runs, tenant, c) then Some(c) else None;
  }

  // ----- what registration is for -----

  /** No row of another run or tenant differs, and no row is lost. */
  ghost predicate OnlyAdds(a: RunTable, b: RunTable, key: (TenantId, RunId)) {
    a.Keys <= b.Keys && forall k :: k in b && k != key ==> k in a && a[k] == b[k]
  }

  /**
   * First sight is enough: a decisive call binds billing-grade to the run it asserts, in every
   * state, even before any span of that run arrived; it adds at most that run's row.
   */
  lemma FirstSightBinds(env: Environment, s: State, c: Call)
    requires Decisive(c)
    ensures
      var t, key := BindStep(env, s, c), (c.outcome.tenant, Registered(c).value);
      && SlotOf(c.outcome) in t.outcomes && key in t.runs && OnlyAdds(s.runs, t.runs, key)
      && t.outcomes[SlotOf(c.outcome)].binding.runId == Registered(c)
      && Billing(t.outcomes[SlotOf(c.outcome)].binding.tier)
      && (key in s.runs ==> t.runs == s.runs)
  {
    DecisiveBind(env, s, c);
  }

  /**
   * An ingested span makes its run bindable: any later call of the tenant whose first signal names
   * that run binds to it at that signal's tier, and no other run's row changed.
   */
  lemma SpanMakesRunBindable(env: Environment, s: State, tenant: TenantId, a: Arrival, c: Call)
    requires !Rejected(a.span) && !IsRollup(a.span) && a.span.runId != ""
    requires c.outcome.tenant == tenant && FirstSignal(c).Some? && FirstSignal(c).value.runId == Some(a.span.runId)
    ensures
      var t := SpanStep(env.price, s, tenant, a);
      var stored := BindStep(env, t, c).outcomes;
      && OnlyAdds(s.runs, t.runs, (tenant, a.span.runId))
      && SlotOf(c.outcome) in stored
      && stored[SlotOf(c.outcome)].binding.runId == Some(a.span.runId)
      && stored[SlotOf(c.outcome)].binding.tier == Some(FirstSignal(c).value.tier)
  {
    var t := SpanStep(env.price, s, tenant, a);
    FirstPresentWins(EnsureRun(t.runs, c), tenant, SignalsOf(c));
  }

  // ----- what a delivery sequence contains -----

  /** The arrival is persisted: an attempt before the first rejected span of some batch. */
  ghost predicate Ingests(ds: seq<Delivery>, tenant: TenantId, a: Arrival) {
    exists i :: 0 <= i < |ds| && ds[i].Spans? && ds[i].tenant == tenant && a in Ingested(ds[i].arrivals)
  }

  ghost predicate IngestsSpan(ds: seq<Delivery>, tenant: TenantId, s: Span) {
    exists a :: Ingests(ds, tenant, a) && a.span == s
  }

  ghost predicate DeliversCall(ds: seq<Delivery>, c: Call) {
    Outcome(c) in ds
  }

  lemma IngestsAttempts(ds: seq<Delivery>, tenant: TenantId, a: Arrival)
    requires Ingests(ds, tenant, a)
    ensures IsAttempt(a)
  {
  }

  /**
   * The same ingested spans and outcome calls, in any order, batching and multiplicity, among any
   * rollups and rejected batch ends, read at any times.
   */
  ghost predicate SameContents(ds: seq<Delivery>, es: seq<Delivery>) {
    && (forall tenant, s :: IngestsSpan(ds, tenant, s) <==> IngestsSpan(es, tenant, s))
    && (forall c :: DeliversCall(ds, c) <==> DeliversCall(es, c))
  }

  /** One attempt: equal idempotency keys under one tenant. */
  predicate SameAttempt(s: Span, t: Span) {
    && !IsRollup(s) && !IsRollup(t) && s.payload.Some? && t.payload.Some?
    && s.runId == t.runId && s.payload.value.attemptId == t.payload.value.attemptId
  }

  /** Every call is decisive, and equal idempotency keys mean equal contents. */
  ghost predicate Consistent(ds: seq<Delivery>) {
    && (forall c :: DeliversCall(ds, c) ==> Decisive(c))
    && (forall tenant, s, t :: IngestsSpan(ds, tenant, s) && IngestsSpan(ds, tenant, t) && SameAttempt(s, t) ==>
                                 s.payload == t.payload)
    && (forall c, d :: DeliversCall(ds, c) && DeliversCall(ds, d) && SlotOf(c.outcome) == SlotOf(d.outcome) ==> c == d)
  }

  /** a is an arrival of the attempt with key k. */
  predicate ArrivalOf(a: Arrival, tenant: TenantId, k: EventKey) {
    IsAttempt(a) && k == (tenant, a.span.runId, a.span.payload.value.attemptId)
  }

  /** e was made from an ingested arrival of its attempt. */
  ghost predicate IngestsEvent(book: PriceBook, ds: seq<Delivery>, e: CostEvent) {
    exists a :: Ingests(ds, e.tenant, a) && ArrivalOf(a, e.tenant, EventKeyOf(e)) && SpanEvent(book, e.tenant, a) == e
  }

  // ----- what a state holds of them -----

  /** The cost store holds exactly the ingested attempts, each made from one of its arrivals. */
  ghost predicate MirrorsCosts(book: PriceBook, costs: map<EventKey, CostEvent>, ds: seq<Delivery>) {
    && (forall k :: k in costs ==> EventKeyOf(costs[k]) == k && IngestsEvent(book, ds, costs[k]))
    && (forall tenant, a, k :: Ingests(ds, tenant, a) && ArrivalOf(a, tenant, k) ==> k in costs)
  }

  /** The outcome store holds exactly the settled calls. */
  ghost predicate MirrorsCalls(outcomes: map<Slot, OutcomeEvent>, ds: seq<Delivery>) {
    && (forall slot :: slot in outcomes ==> FromCall(ds, slot, outcomes[slot]))
    && (forall c :: DeliversCall(ds, c) ==> SlotOf(c.outcome) in outcomes)
  }

  ghost predicate FromCall(ds: seq<Delivery>, slot: Slot, o: OutcomeEvent) {
    exists c :: DeliversCall(ds, c) && Decisive(c) && SlotOf(c.outcome) == slot && o == Settled(c)
  }

  lemma IngestsPush(ds: seq<Delivery>, d: Delivery, tenant: TenantId, a: Arrival)
    ensures Ingests(ds + [d], tenant, a) <==>
            Ingests(ds, tenant, a) || (d.Spans? && d.tenant == tenant && a in Ingested(d.arrivals))
  {
    var es := ds + [d];
    if Ingests(ds, tenant, a) {
      var i :| 0 <= i < |ds| && ds[i].Spans? && ds[i].tenant == tenant && a in Ingested(ds[i].arrivals);
      assert es[i] == ds[i];
    }
    if d.Spans? && d.tenant == tenant && a in Ingested(d.arrivals) {
      assert es[|ds|] == d;
    }
  }

  lemma DeliversCallPush(ds: seq<Delivery>, d: Delivery, c: Call)
    ensures DeliversCall(ds + [d], c) <==> DeliversCall(ds, c) || d == Outcome(c)
  {
  }

  /** es ingests what ds does and one arrival more. */
  ghost predicate OneMore(ds: seq<Delivery>, es: seq<Delivery>, tenant: TenantId, x: Arrival) {
    forall t, a :: Ingests(es, t, a) <==> Ingests(ds, t, a) || (t == tenant && a == x)
  }

  ghost predicate SameIngested(ds: seq<Delivery>, es: seq<Delivery>) {
    forall t, a :: Ingests(es, t, a) <==> Ingests(ds, t, a)
  }

  ghost predicate SameCalls(ds: seq<Delivery>, es: seq<Delivery>) {
    forall c :: DeliversCall(es, c) <==> DeliversCall(ds, c)
  }

  /** es ingests exactly the arrivals of ds, at their times, and delivers its calls. */
  ghost predicate SameArrivals(ds: seq<Delivery>, es: seq<Delivery>) {
    SameIngested(ds, es) && SameCalls(ds, es)
  }

  ghost predicate AllAttempts(arrivals: seq<Arrival>) {
    forall a :: a in arrivals ==> IsAttempt(a)
  }

  lemma LongerBatch(ds: seq<Delivery>, tenant: TenantId, done: seq<Arrival>, x: Arrival)
    requires AllAttempts(done) && IsAttempt(x)
    ensures OneMore(ds + [Spans(tenant, done)], ds + [Spans(tenant, done + [x])], tenant, x)
  {
    IngestedAttempts(done);
    IngestedAttempts(done + [x]);
    forall t, a
      ensures Ingests(ds + [Spans(tenant, done + [x])], t, a) <==>
              Ingests(ds + [Spans(tenant, done)], t, a) || (t == tenant && a == x)
    {
      IngestsPush(ds, Spans(tenant, done), t, a);
      IngestsPush(ds, Spans(tenant, done + [x]), t, a);
    }
  }

  lemma BlankBatch(ds: seq<Delivery>, tenant: TenantId)
    ensures SameIngested(ds, ds + [Spans(tenant, [])])
  {
    forall t, a ensures Ingests(ds + [Spans(tenant, [])], t, a) <==> Ingests(ds, t, a) {
      IngestsPush(ds, Spans(tenant, []), t, a);
    }
  }

  /** Cutting a batch down to what it persists changes nothing that is ingested. */
  lemma CutBatch(ds: seq<Delivery>, tenant: TenantId, arrivals: seq<Arrival>)
    ensures SameIngested(ds + [Spans(tenant, Ingested(arrivals))], ds + [Spans(tenant, arrivals)])
  {
    IngestedAttempts(Ingested(arrivals));
    forall t, a
      ensures Ingests(ds + [Spans(tenant, arrivals)], t, a) <==> Ingests(ds + [Spans(tenant, Ingested(arrivals))], t, a)
    {
      IngestsPush(ds, Spans(tenant, arrivals), t, a);
      IngestsPush(ds, Spans(tenant, Ingested(arrivals)), t, a);
    }
  }

  lemma SameCostsMirror(book: PriceBook, costs: map<EventKey, CostEvent>, ds: seq<Delivery>, es: seq<Delivery>)
    requires MirrorsCosts(book, costs, ds) && SameIngested(ds, es)
    ensures MirrorsCosts(book, costs, es)
  {
    forall k | k in costs ensures IngestsEvent(book, es, costs[k]) {
      EventStays(book, ds, es, costs[k]);
    }
  }

  lemma EventStays(book: PriceBook, ds: seq<Delivery>, es: seq<Delivery>, e: CostEvent)
    requires IngestsEvent(book, ds, e) && forall t, a :: Ingests(ds, t, a) ==> Ingests(es, t, a)
    ensures IngestsEvent(book, es, e)
  {
    var a :| Ingests(ds, e.tenant, a) && ArrivalOf(a, e.tenant, EventKeyOf(e)) && SpanEvent(book, e.tenant, a) == e;
    assert Ingests(es, e.tenant, a);
  }

  lemma SpanMirrors(book: PriceBook, s: State, ds: seq<Delivery>, es: seq<Delivery>, tenant: TenantId, x: Arrival)
    requires MirrorsCosts(book, s.costs, ds) && OneMore(ds, es, tenant, x) && IsAttempt(x)
    ensures MirrorsCosts(book, SpanStep(book, s, tenant, x).costs, es)
  {
    var costs := SpanStep(book, s, tenant, x).costs;
    forall k | k in costs ensures EventKeyOf(costs[k]) == k && IngestsEvent(book, es, costs[k]) {
      if k in s.costs && costs[k] == s.costs[k] {
        EventStays(book, ds, es, s.costs[k]);
      } else {
        assert Ingests(es, tenant, x) && ArrivalOf(x, tenant, k);
      }
    }
  }

  lemma {:induction false} BatchMirrors(book: PriceBook, s: State, tenant: TenantId, ds: seq<Delivery>,
                                        done: seq<Arrival>, rest: seq<Arrival>)
    requires MirrorsCosts(book, s.costs, ds + [Spans(tenant, done)]) && AllAttempts(done) && AllAttempts(rest)
    ensures MirrorsCosts(book, BatchStep(book, s, tenant, rest).costs, ds + [Spans(tenant, done + rest)])
    decreases |rest|
  {
    if rest == [] {
      assert done + rest == done;
    } else {
      var before, after := ds + [Spans(tenant, done)], ds + [Spans(tenant, done + [rest[0]])];
      LongerBatch(ds, tenant, done, rest[0]);
      SpanMirrors(book, s, before, after, tenant, rest[0]);
      BatchMirrors(book, SpanStep(book, s, tenant, rest[0]), tenant, ds, done + [rest[0]], rest[1..]);
      MoveOne(done, rest);
    }
  }

  lemma MoveOne(done: seq<Arrival>, rest: seq<Arrival>)
    requires rest != []
    ensures done + [rest[0]] + rest[1..] == done + rest
  {
  }

  lemma WholeBatchMirrors(book: PriceBook, s: State, tenant: TenantId, front: seq<Delivery>, arrivals: seq<Arrival>)
    requires MirrorsCosts(book, s.costs, front)
    ensures MirrorsCosts(book, BatchStep(book, s, tenant, arrivals).costs, front + [Spans(tenant, arrivals)])
  {
    var cut := Ingested(arrivals);
    BlankBatch(front, tenant);
    SameCostsMirror(book, s.costs, front, front + [Spans(tenant, [])]);
    BatchMirrors(book, s, tenant, front, [], cut);
    assert [] + cut == cut;
    BatchIsWhatItPersists(book, s, tenant, arrivals);
    CutBatch(front, tenant, arrivals);
    SameCostsMirror(book, BatchStep(book, s, tenant, cut).costs, front + [Spans(tenant, cut)], front + [Spans(tenant, arrivals)]);
  }

  lemma CallIngestsNothing(ds: seq<Delivery>, c: Call)
    ensures SameIngested(ds, ds + [Outcome(c)])
  {
    forall t, a ensures Ingests(ds + [Outcome(c)], t, a) <==> Ingests(ds, t, a) {
      IngestsPush(ds, Outcome(c), t, a);
    }
  }

  /** After any deliveries the cost store holds exactly what was ingested. */
  lemma {:induction false} RunMirrorsCosts(env: Environment, ds: seq<Delivery>)
    ensures MirrorsCosts(env.price, RunAll(env, EMPTY, ds).costs, ds)
  {
    if ds != [] {
      var front, last := ds[..|ds| - 1], ds[|ds| - 1];
      assert ds == front + [last];
      RunMirrorsCosts(env, front);
      var s := RunAll(env, EMPTY, front);
      match last
      case Spans(tenant, arrivals) => WholeBatchMirrors(env.price, s, tenant, front, arrivals);
      case Outcome(c) =>
        CallIngestsNothing(front, c);
        SameCostsMirror(env.price, s.costs, front, ds);
    }
  }

  lemma CallStays(ds: seq<Delivery>, es: seq<Delivery>, slot: Slot, o: OutcomeEvent)
    requires FromCall(ds, slot, o) && forall c :: DeliversCall(ds, c) ==> DeliversCall(es, c)
    ensures FromCall(es, slot, o)
  {
  }

  lemma SameCallsMirror(outcomes: map<Slot, OutcomeEvent>, ds: seq<Delivery>, es: seq<Delivery>)
    requires MirrorsCalls(outcomes, ds) && SameCalls(ds, es)
    ensures MirrorsCalls(outcomes, es)
  {
    forall slot | slot in outcomes ensures FromCall(es, slot, outcomes[slot]) {
      CallStays(ds, es, slot, outcomes[slot]);
    }
  }

  lemma CallMirrors(outcomes: map<Slot, OutcomeEvent>, ds: seq<Delivery>, es: seq<Delivery>, c: Call)
    requires MirrorsCalls(outcomes, ds) && Decisive(c)
    requires forall d :: DeliversCall(es, d) <==> DeliversCall(ds, d) || d == c
    ensures MirrorsCalls(outcomes[SlotOf(c.outcome) := Settled(c)], es)
  {
    var after := outcomes[SlotOf(c.outcome) := Settled(c)];
    assert DeliversCall(es, c);
    forall slot | slot in after ensures FromCall(es, slot, after[slot]) {
      if slot != SlotOf(c.outcome) {
        CallStays(ds, es, slot, outcomes[slot]);
      }
    }
  }

  lemma BatchDeliversNoCall(ds: seq<Delivery>, tenant: TenantId, arrivals: seq<Arrival>)
    ensures SameCalls(ds, ds + [Spans(tenant, arrivals)])
  {
    forall c ensures DeliversCall(ds + [Spans(tenant, arrivals)], c) <==> DeliversCall(ds, c) {
      DeliversCallPush(ds, Spans(tenant, arrivals), c);
    }
  }

  /** After decisive calls the outcome store holds exactly the settled calls. */
  lemma {:induction false} RunMirrorsCalls(env: Environment, ds: seq<Delivery>)
    requires forall c :: DeliversCall(ds, c) ==> Decisive(c)
    ensures MirrorsCalls(RunAll(env, EMPTY, ds).outcomes, ds)
  {
    if ds != [] {
      var front, last := ds[..|ds| - 1], ds[|ds| - 1];
      assert ds == front + [last];
      forall c ensures DeliversCall(ds, c) <==> DeliversCall(front, c) || last == Outcome(c) {
        DeliversCallPush(front, last, c);
      }
      RunMirrorsCalls(env, front);
      var s := RunAll(env, EMPTY, front);
      match last
      case Spans(tenant, arrivals) =>
        BatchKeepsOutcomes(env.price, s, tenant, arrivals);
        SameCallsMirror(s.outcomes, front, ds);
      case Outcome(c) =>
        DecisiveBind(env, s, c);
        CallMirrors(s.outcomes, front, ds, c);
    }
  }

  lemma ConsistencyTransfers(ds: seq<Delivery>, es: seq<Delivery>)
    requires SameContents(ds, es) && Consistent(ds)
    ensures Consistent(es)
  {
  }

  // ----- order independence -----

  /** Equal but for what the clock decides: the price of the moment and the time. */
  predicate SameButClock(e: CostEvent, f: CostEvent) {
    e.(cost := None, occurredAt := 0) == f.(cost := None, occurredAt := 0)
  }

  /** The two stores come from one attempt each per key. */
  lemma SameKeyArrivals(env: Environment, ds: seq<Delivery>, es: seq<Delivery>, k: EventKey) returns (a: Arrival, b: Arrival)
    requires SameContents(ds, es) && Consistent(ds) && k in RunAll(env, EMPTY, ds).costs
    ensures k in RunAll(env, EMPTY, es).costs
    ensures Ingests(ds, k.0, a) && Ingests(es, k.0, b)
    ensures ArrivalOf(a, k.0, k) && ArrivalOf(b, k.0, k) && a.span.payload == b.span.payload
    ensures RunAll(env, EMPTY, ds).costs[k] == SpanEvent(env.price, k.0, a)
    ensures RunAll(env, EMPTY, es).costs[k] == SpanEvent(env.price, k.0, b)
  {
    ConsistencyTransfers(ds, es);
    RunMirrorsCosts(env, ds);
    RunMirrorsCosts(env, es);
    a := ArrivalBehind(env.price, RunAll(env, EMPTY, ds).costs, ds, k);
    assert IngestsSpan(es, k.0, a.span);
    var c :| Ingests(es, k.0, c) && c.span == a.span;
    assert ArrivalOf(c, k.0, k);
    b := ArrivalBehind(env.price, RunAll(env, EMPTY, es).costs, es, k);
    assert IngestsSpan(es, k.0, b.span) && SameAttempt(a.span, b.span);
  }

  lemma ArrivalBehind(book: PriceBook, costs: map<EventKey, CostEvent>, ds: seq<Delivery>, k: EventKey) returns (a: Arrival)
    requires MirrorsCosts(book, costs, ds) && k in costs
    ensures Ingests(ds, k.0, a) && ArrivalOf(a, k.0, k) && costs[k] == SpanEvent(book, k.0, a)
  {
    var e := costs[k];
    a :| Ingests(ds, e.tenant, a) && ArrivalOf(a, e.tenant, EventKeyOf(e)) && SpanEvent(book, e.tenant, a) == e;
  }

  /** Each ingested attempt costs the same at all the times it is read. */
  ghost predicate SteadyPrices(book: PriceBook, ds: seq<Delivery>, es: seq<Delivery>) {
    forall tenant, a, b :: Ingests(ds, tenant, a) && Ingests(es, tenant, b) && SameAttempt(a.span, b.span) ==>
                             SpanCost(book, a.span.payload.value, a.clock.pricedAt) ==
                             SpanCost(book, b.span.payload.value, b.clock.pricedAt)
  }

  /**
   * Delivery-order independence: any two delivery sequences that ingest the same spans and deliver
   * the same calls, read at any times, end with the same stored outcomes, bindings included, and with the same cost store
   * up to the clock; and with the same costs if no attempt's price moved between its readings.
   */
  lemma DeliveryOrderIrrelevant(env: Environment, ds: seq<Delivery>, es: seq<Delivery>)
    requires SameContents(ds, es) && Consistent(ds)
    ensures RunAll(env, EMPTY, ds).outcomes == RunAll(env, EMPTY, es).outcomes
    ensures
      var s, t := RunAll(env, EMPTY, ds).costs, RunAll(env, EMPTY, es).costs;
      && s.Keys == t.Keys && (forall k :: k in s ==> SameButClock(s[k], t[k]))
      && (SteadyPrices(env.price, ds, es) ==> forall k :: k in s ==> s[k].cost == t[k].cost)
  {
    OutcomesAgree(env, ds, es);
    var s, t := RunAll(env, EMPTY, ds).costs, RunAll(env, EMPTY, es).costs;
    forall k | k in s
      ensures k in t && SameButClock(s[k], t[k])
      ensures SteadyPrices(env.price, ds, es) ==> s[k].cost == t[k].cost
    {
      CostsAgree(env, ds, es, k);
    }
    forall k | k in t ensures k in s {
      CostsAgree(env, es, ds, k);
    }
  }

  lemma CostsAgree(env: Environment, ds: seq<Delivery>, es: seq<Delivery>, k: EventKey)
    requires SameContents(ds, es) && (Consistent(ds) || Consistent(es)) && k in RunAll(env, EMPTY, ds).costs
    ensures
      var s, t := RunAll(env, EMPTY, ds).costs, RunAll(env, EMPTY, es).costs;
      k in t && SameButClock(s[k], t[k]) && (SteadyPrices(env.price, ds, es) ==> s[k].cost == t[k].cost)
  {
    if Consistent(es) {
      ConsistencyTransfers(es, ds);
    }
    var a, b := SameKeyArrivals(env, ds, es, k);
    SameEventButClock(env.price, a, b, k);
    if SteadyPrices(env.price, ds, es) {
      assert SameAttempt(a.span, b.span);
    }
  }

  lemma SameEventButClock(book: PriceBook, a: Arrival, b: Arrival, k: EventKey)
    requires ArrivalOf(a, k.0, k) && ArrivalOf(b, k.0, k) && a.span.payload == b.span.payload
    ensures SameButClock(SpanEvent(book, k.0, a), SpanEvent(book, k.0, b))
  {
  }

  lemma OutcomesAgree(env: Environment, ds: seq<Delivery>, es: seq<Delivery>)
    requires SameContents(ds, es) && Consistent(ds)
    ensures RunAll(env, EMPTY, ds).outcomes == RunAll(env, EMPTY, es).outcomes
  {
    ConsistencyTransfers(ds, es);
    OutcomesCarryOver(env, ds, es);
    OutcomesCarryOver(env, es, ds);
  }

  lemma OutcomesCarryOver(env: Environment, ds: seq<Delivery>, es: seq<Delivery>)
    requires Consistent(ds) && Consistent(es) && SameCalls(ds, es)
    ensures var s, t := RunAll(env, EMPTY, ds).outcomes, RunAll(env, EMPTY, es).outcomes;
            forall slot :: slot in s ==> slot in t && t[slot] == s[slot]
  {
    RunMirrorsCalls(env, ds);
    RunMirrorsCalls(env, es);
    SameOutcomes(RunAll(env, EMPTY, ds).outcomes, RunAll(env, EMPTY, es).outcomes, ds, es);
  }

  lemma SameOutcomes(s: map<Slot, OutcomeEvent>, t: map<Slot, OutcomeEvent>, ds: seq<Delivery>, es: seq<Delivery>)
    requires MirrorsCalls(s, ds) && MirrorsCalls(t, es) && Consistent(ds) && SameCalls(ds, es)
    ensures forall slot :: slot in s ==> slot in t && t[slot] == s[slot]
  {
    forall slot | slot in s
      ensures slot in t && t[slot] == s[slot]
    {
      SameOutcome(s, t, ds, es, slot);
    }
  }

  lemma SameOutcome(s: map<Slot, OutcomeEvent>, t: map<Slot, OutcomeEvent>, ds: seq<Delivery>, es: seq<Delivery>,
                    slot: Slot)
    requires MirrorsCalls(s, ds) && MirrorsCalls(t, es) && Consistent(ds) && SameCalls(ds, es) && slot in s
    ensures slot in t && t[slot] == s[slot]
  {
    var c :| DeliversCall(ds, c) && Decisive(c) && SlotOf(c.outcome) == slot && s[slot] == Settled(c);
    assert DeliversCall(es, c);
    var d :| DeliversCall(es, d) && Decisive(d) && SlotOf(d.outcome) == slot && t[slot] == Settled(d);
    assert DeliversCall(ds, d);
  }
}
