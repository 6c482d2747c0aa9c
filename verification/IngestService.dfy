/** The backend as it runs: stores updated in place by the collector and the bind handler. */
module IngestService {
  import opened Confidence
  import opened Records
  import opened Ingest
  import opened BindMeaning

  function Attempts(arrivals: seq<Arrival>): (n: nat) {
    if arrivals == [] then 0 else Attempts(arrivals[1..]) + (if IsRollup(arrivals[0].span) then 0 else 1)
  }

  class Backend {
    var runs: RunTable
    var costs: map<EventKey, CostEvent>
    var outcomes: map<Slot, OutcomeEvent>
    var queue: seq<AttributionResult>

    ghost function View(): (s: State)
      reads this
    {
      State(runs, costs, outcomes, queue)
    }

    constructor ()
      ensures View() == EMPTY
    {
      runs, costs, outcomes, queue := map[], map[], map[], [];
    }

    /** _register_run: upsert the span's run row unless the span names no run. */
    method RegisterRun(tenant: TenantId, a: Arrival)
      modifies this`runs
      ensures runs == if a.span.runId == "" then old(runs)
                      else old(runs)[(tenant, a.span.runId) := SpanRun(tenant, a)]
    {
      if a.span.runId == "" {
        return;
      }
      runs := runs[(tenant, a.span.runId) := SpanRun(tenant, a)];
    }

    /** ingest_attribute_maps: persist a batch, stopping where a span is rejected. */
    method IngestAttributeMaps(book: PriceBook, tenant: TenantId, arrivals: seq<Arrival>) returns (persisted: Option<nat>)
      modifies this`runs, this`costs
      ensures View() == BatchStep(book, old(View()), tenant, arrivals)
      ensures persisted.Some? <==> forall a :: a in arrivals ==> !Rejected(a.span)
      ensures persisted.Some? ==> persisted.value == Attempts(arrivals)
      ensures old(Safe(View())) ==> Safe(View())
    {
      var n := 0;
      for i := 0 to |arrivals|
        invariant unchanged(this`outcomes) && unchanged(this`queue)
        invariant BatchStep(book, View(), tenant, arrivals[i..]) == BatchStep(book, old(View()), tenant, arrivals)
        invariant forall k :: 0 <= k < i ==> !Rejected(arrivals[k].span)
        invariant n + Attempts(arrivals[i..]) == Attempts(arrivals)
      {
        var a := arrivals[i];
        ghost var before := View();
        assert arrivals[i..][0] == a && arrivals[i..][1..] == arrivals[i + 1..];
        if !IsRollup(a.span) {
          if a.span.payload.None? {
            assert a in arrivals && Rejected(a.span);
            KeepsSafe(book, old(View()), tenant, arrivals);
            return None;
          }
          var event := SpanEvent(book, tenant, a);
          costs := costs[EventKeyOf(event) := event];
          RegisterRun(tenant, a);
          n := n + 1;
        }
        assert View() == SpanStep(book, before, tenant, a);
      }
      KeepsSafe(book, old(View()), tenant, arrivals);
      return Some(n);
    }

    /** _ensure_run_exists: register a caller-asserted run on first sight only. */
    method EnsureRunExists(c: Call)
      modifies this`runs
      ensures runs == EnsureRun(old(runs), c)
    {
      var r := Registered(c);
      if r.None? {
        return;
      }
      if (c.outcome.tenant, r.value) !in runs {
        runs := runs[(c.outcome.tenant, r.value) := CallRun(c, r.value)];
      }
    }

    /** _bind_deterministic: the first signal whose run the table still has. */
    method BindDeterministic(c: Call) returns (r: Option<AttributionResult>)
      ensures var first := FirstKnown(runs, c.outcome.tenant, SignalsOf(c));
              r == if first.Some? then Some(BoundResult(c, first.value)) else None
    {
      var ss := SignalsOf(c);
      for i := 0 to |ss|
        invariant FirstKnown(runs, c.outcome.tenant, ss[i..]) == FirstKnown(runs, c.outcome.tenant, ss)
      {
        assert ss[i..][0] == ss[i] && ss[i..][1..] == ss[i + 1..];
        if Known(runs, c.outcome.tenant, ss[i]) {
          return Some(BoundResult(c, ss[i]));
        }
      }
      return None;
    }

    /** _bind_advisory: entity match, then semantic inference, else unbound; always enqueued. */
    method BindAdvisoryTiers(env: Environment, c: Call) returns (r: Option<AttributionResult>)
      modifies this`queue
      ensures r == BindAdvisory(env, runs, c)
      ensures FollowsAdvice(r, c, env.entity(runs, c.outcome), env.semantic(runs, c.outcome))
      ensures queue == if r.Some? then old(queue) + [r.value] else old(queue)
    {
      AdviceIsFollowed(env, runs, c);
      var entity := Resolve(env.entity(runs, c.outcome), BindingTier.Candidate);
      if entity.None? {
        return None;
      }
      if entity.value.candidates != [] {
        r := Some(AdvisoryResult(c, entity.value, "EntityMatchResolver"));
      } else {
        var semantic := Resolve(env.semantic(runs, c.outcome), Likely);
        if semantic.None? {
          return None;
        }
        if semantic.value.candidates != [] {
          r := Some(AdvisoryResult(c, semantic.value, "SemanticInferenceResolver"));
        } else {
          r := Some(AttributionResult(c.outcome.tenant, c.outcome.id, None, None, None, [], true));
        }
      }
      queue := queue + [r.value];
    }

    /** bind_outcome: None is the honesty violation, which binds and stores nothing. */
    method BindOutcome(env: Environment, c: Call) returns (r: Option<AttributionResult>)
      modifies this`runs, this`outcomes, this`queue
      ensures View() == BindStep(env, old(View()), c)
      ensures r == Decide(env, runs, c)
      ensures StoresDecision(old(outcomes), outcomes, c.outcome, r)
      ensures (forall s :: s in SignalsOf(c) ==> !Known(runs, c.outcome.tenant, s)) ==>
                FollowsAdvice(r, c, env.entity(runs, c.outcome), env.semantic(runs, c.outcome))
      ensures old(Safe(View())) ==> Safe(View())
    {
      EnsureRunExists(c);
      r := BindDeterministic(c);
      if r.None? {
        r := BindAdvisoryTiers(env, c);
      }
      if r.Some? {
        outcomes := outcomes[SlotOf(c.outcome) := Persisted(c.outcome, r.value)];
      }
      BindKeepsSafe(env, old(View()), c);
      BindStores(env, old(View()), c);
      AdviceIfUnknown(env, runs, c);
    }
  }

  lemma KeepsSafe(book: PriceBook, s: State, tenant: TenantId, arrivals: seq<Arrival>)
    ensures Safe(s) ==> Safe(BatchStep(book, s, tenant, arrivals))
  {
    if Safe(s) {
      BatchIsSafe(book, s, tenant, arrivals);
    }
  }

  lemma AdviceIfUnknown(env: Environment, runs: RunTable, c: Call)
    ensures (forall s :: s in SignalsOf(c) ==> !Known(runs, c.outcome.tenant, s)) ==>
              FollowsAdvice(Decide(env, runs, c), c, env.entity(runs, c.outcome), env.semantic(runs, c.outcome))
  {
    if forall s :: s in SignalsOf(c) ==> !Known(runs, c.outcome.tenant, s) {
      AdvisoryDecision(env, runs, c);
    }
  }

  lemma BindKeepsSafe(env: Environment, s: State, c: Call)
    ensures Safe(s) ==> Safe(BindStep(env, s, c))
  {
    if Safe(s) {
      BindIsSafe(env, s, c);
    }
  }
}
