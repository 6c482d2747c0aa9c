/** What ingest and binding do, in the terms of the span, the request and the resolvers' answers. */
module BindMeaning {
  import opened Confidence
  import opened Records
  import opened Text
  import opened Ingest

  // ----- what a span is stored as -----

  /**
   * A batch of one span. Without a provider it is a rollup and leaves no trace, nor does a span
   * whose counts are rejected; otherwise its event is stored under its key and its run's row written.
   */
  lemma OneSpan(book: PriceBook, s: State, tenant: TenantId, a: Arrival)
    ensures
      var t, provider := BatchStep(book, s, tenant, [a]), a.span.genAiSystem != "" || a.span.llmSystem != "" || a.span.llmProvider != "";
      if !provider || a.span.payload.None? then t == s else StoresAttempt(book, s, t, tenant, a)
  {
    assert [a][1..] == [];
  }

  ghost predicate StoresAttempt(book: PriceBook, s: State, t: State, tenant: TenantId, a: Arrival)
    requires a.span.payload.Some?
  {
    var p := a.span.payload.value;
    var cost := if p.inlineCost.Some? then p.inlineCost else book(p, a.clock.pricedAt);
    && t.costs == s.costs[(tenant, a.span.runId, p.attemptId) :=
                            CostEvent(tenant, a.span.runId, p.attemptId, p.provider, p.model, cost, a.clock.occurredAt)]
    && t.runs == (if a.span.runId == "" then s.runs
                  else s.runs[(tenant, a.span.runId) :=
                                Run(tenant, a.span.runId, a.span.agentName, a.clock.startedAt, a.span.entityKeys)])
    && t.outcomes == s.outcomes && t.queue == s.queue
  }

  // ----- which run a call registers -----

  /** The run a call asserts: the body's, else the echoed one, else a baggage value; empty ids are none. */
  predicate Asserts(c: Call, r: RunId) {
    var body, echoed, baggage := c.outcome.binding.runId, c.signals.echoed, c.signals.baggage;
    || (body == Some(r) && r != "")
    || ((body.None? || body.value == "") && echoed == Some(r))
    || ((body.None? || body.value == "") && echoed.None? && baggage == Some(r) && r != "")
  }

  /** First sight adds the asserted run's row, with the outcome's time and keys and no agent. */
  lemma RegisteredRow(runs: RunTable, c: Call, r: RunId)
    requires Asserts(c, r)
    ensures
      var key := (c.outcome.tenant, r);
      EnsureRun(runs, c) ==
      if key in runs then runs
      else runs[key := Run(c.outcome.tenant, r, None, c.outcome.occurredAt, c.outcome.entityKeys)]
  {
  }

  lemma NothingAsserted(runs: RunTable, c: Call)
    requires forall r :: !Asserts(c, r)
    ensures EnsureRun(runs, c) == runs
  {
    var body, echoed, baggage := c.outcome.binding.runId, c.signals.echoed, c.signals.baggage;
    assert body.Some? ==> !Asserts(c, body.value);
    assert echoed.Some? ==> !Asserts(c, echoed.value);
    assert baggage.Some? ==> !Asserts(c, baggage.value);
  }

  // ----- the deterministic tiers -----

  /** The run id is present and the tenant's table has it. */
  predicate Found(runs: RunTable, tenant: TenantId, id: Option<RunId>) {
    id.Some? && (tenant, id.value) in runs
  }

  /** The result binds the run, at the tier, in the resolver's name, and needs no review. */
  predicate Binds(r: Option<AttributionResult>, c: Call, run: RunId, tier: BindingTier, resolver: string) {
    r == Some(AttributionResult(c.outcome.tenant, c.outcome.id, Some(run), Some(tier), Some(resolver),
                                [RunCandidate(run, tier, 1.0)], false))
  }

  /** Body or ambient context first, then baggage that is not blank, then the echo; unknown runs are passed over. */
  lemma DeterministicDecision(env: Environment, runs: RunTable, c: Call)
    ensures
      var t, body := c.outcome.tenant, c.outcome.binding.runId;
      var ambient := if body.Some? then body else c.signals.active;
      var baggage := if c.signals.baggage.Some? && !Blank(PythonSpace, c.signals.baggage.value) then c.signals.baggage else None;
      var r := Decide(env, runs, c);
      && (Found(runs, t, ambient) ==> Binds(r, c, ambient.value, Exact, "AmbientContextResolver"))
      && (!Found(runs, t, ambient) && Found(runs, t, baggage) ==> Binds(r, c, baggage.value, Exact, "BaggageResolver"))
      && (!Found(runs, t, ambient) && !Found(runs, t, baggage) && Found(runs, t, c.signals.echoed) ==>
            Binds(r, c, c.signals.echoed.value, Deterministic, "RoundTripResolver"))
  {
    ThreeSignals(runs, c);
  }

  lemma ThreeSignals(runs: RunTable, c: Call)
    ensures
      var ss, t := SignalsOf(c), c.outcome.tenant;
      FirstKnown(runs, t, ss) ==
      if Known(runs, t, ss[0]) then Some(ss[0]) else if Known(runs, t, ss[1]) then Some(ss[1])
      else if Known(runs, t, ss[2]) then Some(ss[2]) else None
  {
    var ss := SignalsOf(c);
    assert ss[1..][0] == ss[1] && ss[1..][1..] == ss[2..] && ss[2..][0] == ss[2] && ss[2..][1..] == [];
  }

  // ----- the advisory tiers -----

  predicate OwnTier(found: ResolveOutcome, tier: BindingTier) {
    forall m :: m in found.candidates ==> m.tier == tier
  }

  /** Candidate k is the first of the highest score. */
  predicate TopAt(cs: seq<RunCandidate>, k: nat) {
    && k < |cs|
    && (forall j :: 0 <= j < |cs| ==> cs[j].score <= cs[k].score)
    && (forall j :: 0 <= j < k ==> cs[j].score < cs[k].score)
  }

  /**
   * The result follows a match: review is required, all candidates and the resolver's name are
   * carried, and a run is named, the first of the highest score, exactly if it is not ambiguous.
   */
  ghost predicate Follows(r: Option<AttributionResult>, c: Call, found: ResolveOutcome, resolver: string) {
    && r.Some? && r.value.tenant == c.outcome.tenant && r.value.outcomeId == c.outcome.id
    && r.value.reviewRequired && r.value.boundBy == Some(resolver) && r.value.candidates == found.candidates
    && (found.ambiguous ==> r.value.runId.None? && r.value.tier.None?)
    && (!found.ambiguous ==> exists k: nat :: TopAt(found.candidates, k) &&
                               r.value.runId == Some(found.candidates[k].runId) &&
                               r.value.tier == Some(found.candidates[k].tier))
  }

  /** Nothing matched: unbound, for review. */
  predicate Unbound(r: Option<AttributionResult>, c: Call) {
    r == Some(AttributionResult(c.outcome.tenant, c.outcome.id, None, None, None, [], true))
  }

  /** What the advisory tiers make of the two resolvers' answers; semantic counts only if entity found nothing. */
  ghost predicate FollowsAdvice(r: Option<AttributionResult>, c: Call, entity: ResolveOutcome, semantic: ResolveOutcome) {
    && (!OwnTier(entity, BindingTier.Candidate) ==> r.None?)
    && (entity.candidates != [] && OwnTier(entity, BindingTier.Candidate) ==> Follows(r, c, entity, "EntityMatchResolver"))
    && (entity.candidates == [] && !OwnTier(semantic, Likely) ==> r.None?)
    && (entity.candidates == [] && semantic.candidates != [] && OwnTier(semantic, Likely) ==>
          Follows(r, c, semantic, "SemanticInferenceResolver"))
    && (entity.candidates == [] && semantic.candidates == [] ==> Unbound(r, c))
  }

  /** Without a known signal the decision follows the resolvers' advice. */
  lemma AdvisoryDecision(env: Environment, runs: RunTable, c: Call)
    requires forall s :: s in SignalsOf(c) ==> !Known(runs, c.outcome.tenant, s)
    ensures FollowsAdvice(Decide(env, runs, c), c, env.entity(runs, c.outcome), env.semantic(runs, c.outcome))
  {
    AdviceIsFollowed(env, runs, c);
  }

  lemma AdviceIsFollowed(env: Environment, runs: RunTable, c: Call)
    ensures FollowsAdvice(BindAdvisory(env, runs, c), c, env.entity(runs, c.outcome), env.semantic(runs, c.outcome))
  {
    var entity, semantic := env.entity(runs, c.outcome), env.semantic(runs, c.outcome);
    if entity.candidates != [] {
      MatchIsFollowed(c, entity, "EntityMatchResolver");
    }
    if semantic.candidates != [] {
      MatchIsFollowed(c, semantic, "SemanticInferenceResolver");
    }
  }

  lemma MatchIsFollowed(c: Call, found: ResolveOutcome, resolver: string)
    requires found.candidates != []
    ensures Follows(Some(AdvisoryResult(c, found, resolver)), c, found, resolver)
  {
    var k := TopIndex(found.candidates);
  }

  lemma {:induction false} TopIndex(cs: seq<RunCandidate>) returns (k: nat)
    requires cs != []
    ensures TopAt(cs, k) && cs[k] == TopCandidate(cs)
  {
    if |cs| == 1 {
      k := 0;
    } else {
      var j := TopIndex(cs[1..]);
      assert forall i :: 1 <= i < |cs| ==> cs[i] == cs[1..][i - 1];
      k := if cs[0].score >= cs[1..][j].score then 0 else j + 1;
    }
  }

  // ----- what is stored -----

  /** The outcome is stored as it came, but for the binding, which is the decision's. */
  predicate StoresDecision(before: map<Slot, OutcomeEvent>, after: map<Slot, OutcomeEvent>, o: OutcomeEvent,
                           r: Option<AttributionResult>)
  {
    if r.None? then after == before
    else
      var key := if o.correlationId.Some? then ByCorrelation(o.correlationId.value) else BySource(o.source, o.id);
      after == before[(o.tenant, key) :=
                        OutcomeEvent(o.tenant, o.id, o.name, o.signal, o.occurredAt,
                                     OutcomeBinding(r.value.runId, r.value.tier, r.value.boundBy, Observational),
                                     o.entityKeys, o.correlationId, o.source)]
  }

  lemma BindStores(env: Environment, s: State, c: Call)
    ensures StoresDecision(s.outcomes, BindStep(env, s, c).outcomes, c.outcome, Decide(env, EnsureRun(s.runs, c), c))
  {
  }
}
