/**
 * Rejected spans. A span that fails to decode abandons the rest of its batch, so what a batch
 * persists depends on where the rejected span stands in it.
 */
module IngestBatches {
  import opened Confidence
  import opened Records
  import opened Ingest
  import opened IngestOrder

  // ----- batches cut at their first rejected span -----

  function Cut(d: Delivery): (c: Delivery) {
    if d.Spans? then Spans(d.tenant, Ingested(d.arrivals)) else d
  }

  ghost function CutAll(ds: seq<Delivery>): (cs: seq<Delivery>)
    ensures |cs| == |ds| && forall i :: 0 <= i < |ds| ==> cs[i] == Cut(ds[i])
  {
    seq(|ds|, i requires 0 <= i < |ds| => Cut(ds[i]))
  }

  /** Delivering only what each batch persists ends in the same state. */
  lemma {:induction false} CutChangesNothing(env: Environment, ds: seq<Delivery>)
    ensures RunAll(env, EMPTY, CutAll(ds)) == RunAll(env, EMPTY, ds)
  {
    if ds != [] {
      var n := |ds| - 1;
      CutChangesNothing(env, ds[..n]);
      assert CutAll(ds)[..n] == CutAll(ds[..n]);
      if ds[n].Spans? {
        BatchIsWhatItPersists(env.price, RunAll(env, EMPTY, ds[..n]), ds[n].tenant, ds[n].arrivals);
      }
    }
  }

  // ----- what is handed in -----

  /** The arrival is in some batch, persisted or not. */
  ghost predicate Hands(ds: seq<Delivery>, tenant: TenantId, a: Arrival) {
    exists i :: 0 <= i < |ds| && ds[i].Spans? && ds[i].tenant == tenant && a in ds[i].arrivals
  }

  /** The same arrivals and calls, in any order, batching and multiplicity. */
  ghost predicate SameHanded(ds: seq<Delivery>, es: seq<Delivery>) {
    && (forall t, a :: Hands(es, t, a) <==> Hands(ds, t, a))
    && SameCalls(ds, es)
  }

  /** No tenant hands in both a rejected span and a decodable attempt. */
  ghost predicate Unmixed(ds: seq<Delivery>) {
    forall tenant, a, b :: Hands(ds, tenant, a) && Hands(ds, tenant, b) && Rejected(a.span) ==> !IsAttempt(b)
  }

  lemma {:induction false} IngestedWithoutRejects(arrivals: seq<Arrival>, a: Arrival)
    requires a in arrivals && IsAttempt(a) && forall x :: x in arrivals ==> !Rejected(x.span)
    ensures a in Ingested(arrivals)
  {
    assert arrivals[0] in arrivals;
    if a != arrivals[0] {
      assert arrivals == [arrivals[0]] + arrivals[1..];
      IngestedWithoutRejects(arrivals[1..], a);
    }
  }

  lemma UnmixedIngests(ds: seq<Delivery>, tenant: TenantId, a: Arrival)
    requires Unmixed(ds)
    ensures Ingests(ds, tenant, a) <==> Hands(ds, tenant, a) && IsAttempt(a)
  {
    if Hands(ds, tenant, a) && IsAttempt(a) {
      var i :| 0 <= i < |ds| && ds[i].Spans? && ds[i].tenant == tenant && a in ds[i].arrivals;
      forall x | x in ds[i].arrivals ensures !Rejected(x.span) {
        assert Hands(ds, tenant, x);
      }
      IngestedWithoutRejects(ds[i].arrivals, a);
    }
  }

  lemma UnmixedTransfers(ds: seq<Delivery>, es: seq<Delivery>)
    requires SameHanded(ds, es) && Unmixed(ds)
    ensures Unmixed(es)
  {
  }

  /** Unmixed deliveries ingest the same however they are batched, so the order theorems apply to them. */
  lemma UnmixedSameArrivals(ds: seq<Delivery>, es: seq<Delivery>)
    requires SameHanded(ds, es) && Unmixed(ds)
    ensures SameArrivals(ds, es)
  {
    UnmixedTransfers(ds, es);
    forall t, a ensures Ingests(es, t, a) <==> Ingests(ds, t, a) {
      UnmixedIngests(ds, t, a);
      UnmixedIngests(es, t, a);
    }
  }

  // ----- the keys of the cost store -----

  lemma KeysAre(env: Environment, ds: seq<Delivery>, k: EventKey)
    ensures k in RunAll(env, EMPTY, ds).costs <==> exists a :: Ingests(ds, k.0, a) && ArrivalOf(a, k.0, k)
  {
    RunMirrorsCosts(env, ds);
    if k in RunAll(env, EMPTY, ds).costs {
      var a := ArrivalBehind(env.price, RunAll(env, EMPTY, ds).costs, ds, k);
    }
  }

  /** However the same arrivals are ordered and batched, the same attempts are stored. */
  ghost predicate KeysStable(env: Environment, ds: seq<Delivery>) {
    forall es :: SameHanded(ds, es) ==> RunAll(env, EMPTY, es).costs.Keys == RunAll(env, EMPTY, ds).costs.Keys
  }

  /**
   * The stored attempts are independent of order and batching exactly when no tenant hands in both
   * a rejected span and a decodable attempt.
   */
  lemma KeysStableIff(env: Environment, ds: seq<Delivery>)
    ensures KeysStable(env, ds) <==> Unmixed(ds)
  {
    if Unmixed(ds) {
      forall es | SameHanded(ds, es)
        ensures RunAll(env, EMPTY, es).costs.Keys == RunAll(env, EMPTY, ds).costs.Keys
      {
        UnmixedSameArrivals(ds, es);
        SameIngestedSameKeys(env, ds, es);
      }
    }
    if KeysStable(env, ds) {
      forall tenant, a, b | Hands(ds, tenant, a) && Hands(ds, tenant, b) && Rejected(a.span)
        ensures !IsAttempt(b)
      {
        MixedIsUnstable(env, ds, tenant, a, b);
      }
    }
  }

  lemma SameIngestedSameKeys(env: Environment, ds: seq<Delivery>, es: seq<Delivery>)
    requires SameIngested(ds, es)
    ensures RunAll(env, EMPTY, es).costs.Keys == RunAll(env, EMPTY, ds).costs.Keys
  {
    var s, t := RunAll(env, EMPTY, ds).costs, RunAll(env, EMPTY, es).costs;
    forall k ensures k in t.Keys <==> k in s.Keys {
      KeysAre(env, ds, k);
      KeysAre(env, es, k);
    }
  }

  /** Every batch of the tenant led by one arrival. */
  ghost function Led(ds: seq<Delivery>, tenant: TenantId, a: Arrival): (es: seq<Delivery>)
    ensures |es| == |ds|
    ensures forall i :: 0 <= i < |ds| ==>
              es[i] == if ds[i].Spans? && ds[i].tenant == tenant then Spans(tenant, [a] + ds[i].arrivals) else ds[i]
  {
    seq(|ds|, i requires 0 <= i < |ds| =>
      if ds[i].Spans? && ds[i].tenant == tenant then Spans(tenant, [a] + ds[i].arrivals) else ds[i])
  }

  lemma LedHandsTheSame(ds: seq<Delivery>, tenant: TenantId, a: Arrival)
    requires Hands(ds, tenant, a)
    ensures SameHanded(ds, Led(ds, tenant, a))
  {
    var es := Led(ds, tenant, a);
    forall t, x ensures Hands(es, t, x) <==> Hands(ds, t, x) {
      if i :| 0 <= i < |ds| && ds[i].Spans? && ds[i].tenant == t && x in ds[i].arrivals {
        assert es[i].Spans? && es[i].tenant == t && x in es[i].arrivals;
      }
      if i :| 0 <= i < |es| && es[i].Spans? && es[i].tenant == t && x in es[i].arrivals {
        assert ds[i].Spans? && ds[i].tenant == t;
      }
    }
    forall c ensures DeliversCall(es, c) <==> DeliversCall(ds, c) {
      if i :| 0 <= i < |ds| && ds[i] == Outcome(c) {
        assert es[i] == Outcome(c);
      }
      if i :| 0 <= i < |es| && es[i] == Outcome(c) {
        assert ds[i] == Outcome(c);
      }
    }
  }

  lemma LedByRejectIngestsNothing(ds: seq<Delivery>, tenant: TenantId, a: Arrival, x: Arrival)
    requires Rejected(a.span)
    ensures !Ingests(Led(ds, tenant, a), tenant, x)
  {
    forall arrivals: seq<Arrival> ensures Ingested([a] + arrivals) == [] {
      assert ([a] + arrivals)[0] == a;
    }
  }

  /** b alone is stored; with every batch led by the rejected span it is not. */
  lemma MixedIsUnstable(env: Environment, ds: seq<Delivery>, tenant: TenantId, a: Arrival, b: Arrival)
    requires KeysStable(env, ds) && Hands(ds, tenant, a) && Hands(ds, tenant, b) && Rejected(a.span)
    ensures !IsAttempt(b)
  {
    if IsAttempt(b) {
      var k := (tenant, b.span.runId, b.span.payload.value.attemptId);
      AloneIsStored(env, ds, tenant, b, k);
      LedIsNotStored(env, ds, tenant, a, k);
    }
  }

  lemma AloneIsStored(env: Environment, ds: seq<Delivery>, tenant: TenantId, b: Arrival, k: EventKey)
    requires KeysStable(env, ds) && Hands(ds, tenant, b) && ArrivalOf(b, tenant, k)
    ensures k in RunAll(env, EMPTY, ds).costs
  {
    var d := Spans(tenant, [b]);
    var es := ds + [d];
    AddedHandsTheSame(ds, tenant, b);
    IngestedAttempts([b]);
    IngestsPush(ds, d, tenant, b);
    KeysAre(env, es, k);
    assert k in RunAll(env, EMPTY, es).costs.Keys;
  }

  lemma AddedHandsTheSame(ds: seq<Delivery>, tenant: TenantId, b: Arrival)
    requires Hands(ds, tenant, b)
    ensures SameHanded(ds, ds + [Spans(tenant, [b])])
  {
    var es := ds + [Spans(tenant, [b])];
    forall t, x ensures Hands(es, t, x) <==> Hands(ds, t, x) {
      if i :| 0 <= i < |ds| && ds[i].Spans? && ds[i].tenant == t && x in ds[i].arrivals {
        assert es[i] == ds[i];
      }
    }
    BatchDeliversNoCall(ds, tenant, [b]);
  }

  lemma LedIsNotStored(env: Environment, ds: seq<Delivery>, tenant: TenantId, a: Arrival, k: EventKey)
    requires KeysStable(env, ds) && Hands(ds, tenant, a) && Rejected(a.span) && k.0 == tenant
    ensures k !in RunAll(env, EMPTY, ds).costs
  {
    var es := Led(ds, tenant, a);
    LedHandsTheSame(ds, tenant, a);
    forall x ensures !Ingests(es, tenant, x) {
      LedByRejectIngestsNothing(ds, tenant, a, x);
    }
    KeysAre(env, es, k);
    assert k !in RunAll(env, EMPTY, es).costs.Keys;
  }

  /** One batch, two orders: after the rejected span the good one is lost. */
  lemma RejectedSpanLosesTheRest(env: Environment) returns (good: Arrival, bad: Arrival)
    ensures
      var k := ("t", "r", "1");
      && RunAll(env, EMPTY, [Spans("t", [good, bad])]).costs.Keys == {k}
      && RunAll(env, EMPTY, [Spans("t", [bad, good])]).costs.Keys == {}
  {
    good := PlainArrival("r", "1", None, 0);
    bad := good.(span := good.span.(payload := None));
    var a, b := [Spans("t", [good, bad])], [Spans("t", [bad, good])];
    assert a[..0] == [] && b[..0] == [];
    assert [good, bad][1..] == [bad];
    assert BatchStep(env.price, SpanStep(env.price, EMPTY, "t", good), "t", [bad]) == SpanStep(env.price, EMPTY, "t", good);
  }
}
