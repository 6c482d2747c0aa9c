/** The agent a run is grouped under: run rows are last-writer-wins, so it can depend on delivery. */
module IngestAgents {
  import opened Confidence
  import opened Records
  import opened Ingest
  import opened IngestOrder
  import opened IngestClock
  import opened Metrics

  /** An attempt that writes the run's row. */
  predicate WritesRow(s: Span, r: RunId) {
    !IsRollup(s) && s.runId == r && r != ""
  }

  function AgentLabel(agent: Option<string>): (a: string) {
    if agent.Some? then agent.value else UNKNOWN_AGENT
  }

  /** The agent a report reads off the run table. */
  function RowAgent(runs: RunTable, tenant: TenantId, r: RunId): (a: string) {
    if (tenant, r) in runs then AgentLabel(runs[(tenant, r)].agentName) else UNKNOWN_AGENT
  }

  /** Some ingested attempt of the run wrote this agent. */
  ghost predicate WroteAgent(ds: seq<Delivery>, tenant: TenantId, r: RunId, agent: string) {
    exists a :: Ingests(ds, tenant, a) && WritesRow(a.span, r) && AgentLabel(a.span.agentName) == agent
  }

  /** The row's agent is one that an ingested attempt wrote, or unknown if none did. */
  ghost predicate AgentMirrors(runs: RunTable, ds: seq<Delivery>, tenant: TenantId, r: RunId) {
    || WroteAgent(ds, tenant, r, RowAgent(runs, tenant, r))
    || (RowAgent(runs, tenant, r) == UNKNOWN_AGENT &&
        forall a :: Ingests(ds, tenant, a) ==> !WritesRow(a.span, r))
  }

  /** A bind adds rows without an agent and never overwrites one. */
  lemma BindKeepsAgent(env: Environment, s: State, c: Call, tenant: TenantId, r: RunId)
    ensures RowAgent(BindStep(env, s, c).runs, tenant, r) == RowAgent(s.runs, tenant, r)
  {
  }

  lemma SpanWritesAgent(book: PriceBook, s: State, owner: TenantId, x: Arrival, tenant: TenantId, r: RunId)
    requires !Rejected(x.span)
    ensures RowAgent(SpanStep(book, s, owner, x).runs, tenant, r) ==
            if owner == tenant && WritesRow(x.span, r) then AgentLabel(x.span.agentName)
            else RowAgent(s.runs, tenant, r)
  {
  }

  lemma SpanAgentMirrors(book: PriceBook, s: State, ds: seq<Delivery>, es: seq<Delivery>, owner: TenantId, x: Arrival,
                         tenant: TenantId, r: RunId)
    requires AgentMirrors(s.runs, ds, tenant, r) && OneMore(ds, es, owner, x) && IsAttempt(x)
    ensures AgentMirrors(SpanStep(book, s, owner, x).runs, es, tenant, r)
  {
    SpanWritesAgent(book, s, owner, x, tenant, r);
    var agent := RowAgent(s.runs, tenant, r);
    if owner == tenant && WritesRow(x.span, r) {
      assert Ingests(es, tenant, x);
    } else if WroteAgent(ds, tenant, r, agent) {
      var a :| Ingests(ds, tenant, a) && WritesRow(a.span, r) && AgentLabel(a.span.agentName) == agent;
      assert Ingests(es, tenant, a);
    }
  }

  lemma {:induction false} BatchAgentMirrors(book: PriceBook, s: State, owner: TenantId, ds: seq<Delivery>,
                                             done: seq<Arrival>, rest: seq<Arrival>, tenant: TenantId, r: RunId)
    requires AgentMirrors(s.runs, ds + [Spans(owner, done)], tenant, r) && AllAttempts(done) && AllAttempts(rest)
    ensures AgentMirrors(BatchStep(book, s, owner, rest).runs, ds + [Spans(owner, done + rest)], tenant, r)
    decreases |rest|
  {
    if rest == [] {
      assert done + rest == done;
    } else {
      LongerBatchAgent(book, s, owner, ds, done, rest[0], tenant, r);
      BatchAgentMirrors(book, SpanStep(book, s, owner, rest[0]), owner, ds, done + [rest[0]], rest[1..], tenant, r);
      MoveOne(done, rest);
    }
  }

  lemma LongerBatchAgent(book: PriceBook, s: State, owner: TenantId, ds: seq<Delivery>, done: seq<Arrival>, x: Arrival,
                         tenant: TenantId, r: RunId)
    requires AgentMirrors(s.runs, ds + [Spans(owner, done)], tenant, r) && AllAttempts(done) && IsAttempt(x)
    ensures AgentMirrors(SpanStep(book, s, owner, x).runs, ds + [Spans(owner, done + [x])], tenant, r)
  {
    LongerBatch(ds, owner, done, x);
    SpanAgentMirrors(book, s, ds + [Spans(owner, done)], ds + [Spans(owner, done + [x])], owner, x, tenant, r);
  }

  lemma SameArrivalsAgent(runs: RunTable, ds: seq<Delivery>, es: seq<Delivery>, tenant: TenantId, r: RunId)
    requires AgentMirrors(runs, ds, tenant, r) && SameIngested(ds, es)
    ensures AgentMirrors(runs, es, tenant, r)
  {
  }

  lemma WholeBatchAgent(book: PriceBook, s: State, owner: TenantId, front: seq<Delivery>, arrivals: seq<Arrival>,
                        tenant: TenantId, r: RunId)
    requires AgentMirrors(s.runs, front, tenant, r)
    ensures AgentMirrors(BatchStep(book, s, owner, arrivals).runs, front + [Spans(owner, arrivals)], tenant, r)
  {
    var cut := Ingested(arrivals);
    BlankBatch(front, owner);
    SameArrivalsAgent(s.runs, front, front + [Spans(owner, [])], tenant, r);
    BatchAgentMirrors(book, s, owner, front, [], cut, tenant, r);
    assert [] + cut == cut;
    BatchIsWhatItPersists(book, s, owner, arrivals);
    CutBatch(front, owner, arrivals);
    SameArrivalsAgent(BatchStep(book, s, owner, cut).runs, front + [Spans(owner, cut)], front + [Spans(owner, arrivals)],
                      tenant, r);
  }

  lemma {:induction false} RunAgentMirrors(env: Environment, ds: seq<Delivery>, tenant: TenantId, r: RunId)
    ensures AgentMirrors(RunAll(env, EMPTY, ds).runs, ds, tenant, r)
  {
    if ds != [] {
      var front, last := ds[..|ds| - 1], ds[|ds| - 1];
      assert ds == front + [last];
      RunAgentMirrors(env, front, tenant, r);
      var s := RunAll(env, EMPTY, front);
      match last
      case Spans(owner, arrivals) => WholeBatchAgent(env.price, s, owner, front, arrivals, tenant, r);
      case Outcome(c) =>
        CallIngestsNothing(front, c);
        BindKeepsAgent(env, s, c, tenant, r);
        SameAgentMirrors(s.runs, BindStep(env, s, c).runs, front, ds, tenant, r);
    }
  }

  lemma SameAgentMirrors(runs: RunTable, after: RunTable, ds: seq<Delivery>, es: seq<Delivery>, tenant: TenantId, r: RunId)
    requires AgentMirrors(runs, ds, tenant, r) && SameIngested(ds, es)
    requires RowAgent(after, tenant, r) == RowAgent(runs, tenant, r)
    ensures AgentMirrors(after, es, tenant, r)
  {
    SameArrivalsAgent(runs, ds, es, tenant, r);
  }

  // ----- when the agent is independent of delivery -----

  /** All ingested attempts of the run carry one agent. */
  ghost predicate OneAgent(ds: seq<Delivery>, tenant: TenantId, r: RunId) {
    forall a, b :: Ingests(ds, tenant, a) && Ingests(ds, tenant, b) &&
                   WritesRow(a.span, r) && WritesRow(b.span, r) ==>
                     AgentLabel(a.span.agentName) == AgentLabel(b.span.agentName)
  }

  lemma AgentAgrees(env: Environment, ds: seq<Delivery>, es: seq<Delivery>, tenant: TenantId, r: RunId)
    requires SameContents(ds, es) && OneAgent(ds, tenant, r)
    ensures RowAgent(RunAll(env, EMPTY, ds).runs, tenant, r) == RowAgent(RunAll(env, EMPTY, es).runs, tenant, r)
  {
    RunAgentMirrors(env, ds, tenant, r);
    RunAgentMirrors(env, es, tenant, r);
    SameAgentWritten(RunAll(env, EMPTY, ds).runs, RunAll(env, EMPTY, es).runs, ds, es, tenant, r);
  }

  lemma SameAgentWritten(s: RunTable, t: RunTable, ds: seq<Delivery>, es: seq<Delivery>, tenant: TenantId, r: RunId)
    requires AgentMirrors(s, ds, tenant, r) && AgentMirrors(t, es, tenant, r) && OneAgent(ds, tenant, r)
    requires forall x :: IngestsSpan(ds, tenant, x) <==> IngestsSpan(es, tenant, x)
    ensures RowAgent(s, tenant, r) == RowAgent(t, tenant, r)
  {
    if a :| Ingests(ds, tenant, a) && WritesRow(a.span, r) && AgentLabel(a.span.agentName) == RowAgent(s, tenant, r) {
      assert IngestsSpan(es, tenant, a.span);
      var b :| Ingests(es, tenant, b) && WritesRow(b.span, r) && AgentLabel(b.span.agentName) == RowAgent(t, tenant, r);
      assert IngestsSpan(ds, tenant, b.span);
    } else if b :| Ingests(es, tenant, b) && WritesRow(b.span, r) && AgentLabel(b.span.agentName) == RowAgent(t, tenant, r) {
      assert IngestsSpan(ds, tenant, b.span);
    }
  }

  /** However the same spans and calls are delivered, the run reads under the same agent. */
  ghost predicate AgentStable(env: Environment, ds: seq<Delivery>, tenant: TenantId, r: RunId) {
    forall es :: SameContents(ds, es) ==>
                   RowAgent(RunAll(env, EMPTY, ds).runs, tenant, r) == RowAgent(RunAll(env, EMPTY, es).runs, tenant, r)
  }

  /** A run's agent is independent of delivery exactly when its ingested attempts carry one agent. */
  lemma AgentStableIff(env: Environment, ds: seq<Delivery>, tenant: TenantId, r: RunId)
    ensures AgentStable(env, ds, tenant, r) <==> OneAgent(ds, tenant, r)
  {
    if OneAgent(ds, tenant, r) {
      forall es | SameContents(ds, es)
        ensures RowAgent(RunAll(env, EMPTY, ds).runs, tenant, r) == RowAgent(RunAll(env, EMPTY, es).runs, tenant, r)
      {
        AgentAgrees(env, ds, es, tenant, r);
      }
    }
    if AgentStable(env, ds, tenant, r) {
      forall a | Ingests(ds, tenant, a) && WritesRow(a.span, r)
        ensures AgentLabel(a.span.agentName) == RowAgent(RunAll(env, EMPTY, ds).runs, tenant, r)
      {
        RedeliveredAgent(env, ds, tenant, r, a);
      }
    }
  }

  lemma RedeliveredAgent(env: Environment, ds: seq<Delivery>, tenant: TenantId, r: RunId, a: Arrival)
    requires AgentStable(env, ds, tenant, r)
    requires Ingests(ds, tenant, a) && WritesRow(a.span, r)
    ensures AgentLabel(a.span.agentName) == RowAgent(RunAll(env, EMPTY, ds).runs, tenant, r)
  {
    Redelivered(env, ds, tenant, a);
    RunLast(env, ds, tenant, a);
    SameArrivalsSameContents(ds, ds + [Spans(tenant, [a])]);
    SpanWritesAgent(env.price, RunAll(env, EMPTY, ds), tenant, a, tenant, r);
  }

  /** Two attempts of one run under different agents: the last one delivered decides. */
  lemma AgentRowsDependOnOrder(env: Environment) returns (a: Delivery, b: Delivery)
    ensures RowAgent(RunAll(env, EMPTY, [a, b]).runs, "t", "r") != RowAgent(RunAll(env, EMPTY, [b, a]).runs, "t", "r")
  {
    var x, y := PlainArrival("r", "1", Some("sales"), 0), PlainArrival("r", "2", Some("support"), 0);
    a, b := Spans("t", [x]), Spans("t", [y]);
    var early, late := SpanStep(env.price, EMPTY, "t", x), SpanStep(env.price, EMPTY, "t", y);
    RunTwo(env, a, b);
    RunTwo(env, b, a);
    OneSpanBatch(env.price, EMPTY, "t", x);
    OneSpanBatch(env.price, EMPTY, "t", y);
    OneSpanBatch(env.price, early, "t", y);
    OneSpanBatch(env.price, late, "t", x);
    assert "r"[0] == 'r' && "sales"[1] == 'a' && "support"[1] == 'u';
    SpanWritesAgent(env.price, early, "t", y, "t", "r");
    SpanWritesAgent(env.price, late, "t", x, "t", "r");
  }
}
