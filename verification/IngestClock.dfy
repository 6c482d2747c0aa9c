/**
 * What the ingest clock decides. A span's event is stamped, and priced unless it carries its own
 * cost, at the moment it is ingested, so a redelivery can move it across a report window.
 */
module IngestClock {
  import opened Confidence
  import opened Records
  import opened Ingest
  import opened IngestOrder
  import opened ReportOrder

  // ----- what a window report can read -----

  predicate InWindow(e: CostEvent, start: int, end: int) {
    start <= e.occurredAt < end
  }

  /** What a report over [start, end) reads of a stored event: everything but its time. */
  function ViewOf(costs: map<EventKey, CostEvent>, k: EventKey, start: int, end: int): (v: Option<CostEvent>) {
    if k in costs && InWindow(costs[k], start, end) then Some(Timeless(costs[k])) else None
  }

  ghost predicate SameViews(s: State, t: State, start: int, end: int) {
    forall k :: ViewOf(s.costs, k, start, end) == ViewOf(t.costs, k, start, end)
  }

  /** What the window would read if this arrival were the last of its attempt. */
  function Visible(book: PriceBook, tenant: TenantId, a: Arrival, start: int, end: int): (v: Option<CostEvent>)
    requires a.span.payload.Some?
  {
    var e := SpanEvent(book, tenant, a);
    if InWindow(e, start, end) then Some(Timeless(e)) else None
  }

  /** All readings of an attempt fall on one side of the window, and inside it cost the same. */
  ghost predicate SteadyViews(book: PriceBook, ds: seq<Delivery>, es: seq<Delivery>, start: int, end: int) {
    forall tenant, a, b :: Ingests(ds, tenant, a) && Ingests(es, tenant, b) && SameAttempt(a.span, b.span) ==>
                             Visible(book, tenant, a, start, end) == Visible(book, tenant, b, start, end)
  }

  /** In terms of the readings: same side, and inside the window the same price. */
  lemma SteadyIff(book: PriceBook, tenant: TenantId, a: Arrival, b: Arrival, start: int, end: int)
    requires SameAttempt(a.span, b.span) && a.span.payload == b.span.payload
    ensures
      var inside := start <= a.clock.occurredAt < end;
      var p := a.span.payload.value;
      Visible(book, tenant, a, start, end) == Visible(book, tenant, b, start, end) <==>
      && (inside <==> start <= b.clock.occurredAt < end)
      && (inside ==> SpanCost(book, p, a.clock.pricedAt) == SpanCost(book, p, b.clock.pricedAt))
  {
  }

  // ----- order independence of what is read -----

  lemma ViewAgrees(env: Environment, ds: seq<Delivery>, es: seq<Delivery>, start: int, end: int, k: EventKey)
    requires SameContents(ds, es) && Consistent(ds) && SteadyViews(env.price, ds, es, start, end)
    requires k in RunAll(env, EMPTY, ds).costs
    ensures ViewOf(RunAll(env, EMPTY, ds).costs, k, start, end) == ViewOf(RunAll(env, EMPTY, es).costs, k, start, end)
  {
    var a, b := SameKeyArrivals(env, ds, es, k);
    SteadyAt(env.price, ds, es, k, a, b, start, end);
    ViewIsVisible(env.price, RunAll(env, EMPTY, ds).costs, k, a, start, end);
    ViewIsVisible(env.price, RunAll(env, EMPTY, es).costs, k, b, start, end);
  }

  lemma SteadyAt(book: PriceBook, ds: seq<Delivery>, es: seq<Delivery>, k: EventKey, a: Arrival, b: Arrival, start: int, end: int)
    requires SteadyViews(book, ds, es, start, end) && ArrivalOf(a, k.0, k) && ArrivalOf(b, k.0, k)
    requires Ingests(ds, k.0, a) && Ingests(es, k.0, b)
    ensures Visible(book, k.0, a, start, end) == Visible(book, k.0, b, start, end)
  {
    assert SameAttempt(a.span, b.span);
  }

  lemma ViewIsVisible(book: PriceBook, costs: map<EventKey, CostEvent>, k: EventKey, a: Arrival, start: int, end: int)
    requires k in costs && a.span.payload.Some? && costs[k] == SpanEvent(book, k.0, a)
    ensures ViewOf(costs, k, start, end) == Visible(book, k.0, a, start, end)
  {
  }

  /** Deliveries of the same spans and calls read the same in a window all readings agree about. */
  lemma ViewsAgree(env: Environment, ds: seq<Delivery>, es: seq<Delivery>, start: int, end: int)
    requires SameContents(ds, es) && Consistent(ds) && SteadyViews(env.price, ds, es, start, end)
    ensures SameViews(RunAll(env, EMPTY, ds), RunAll(env, EMPTY, es), start, end)
  {
    var s, t := RunAll(env, EMPTY, ds).costs, RunAll(env, EMPTY, es).costs;
    DeliveryOrderIrrelevant(env, ds, es);
    forall k ensures ViewOf(s, k, start, end) == ViewOf(t, k, start, end) {
      if k in s {
        ViewAgrees(env, ds, es, start, end, k);
      }
    }
  }

  // ----- and its exact condition -----

  /** A batch of one attempt is one step. */
  lemma RunLast(env: Environment, ds: seq<Delivery>, tenant: TenantId, a: Arrival)
    requires IsAttempt(a)
    ensures RunAll(env, EMPTY, ds + [Spans(tenant, [a])]) == SpanStep(env.price, RunAll(env, EMPTY, ds), tenant, a)
  {
    var es := ds + [Spans(tenant, [a])];
    assert es[..|es| - 1] == ds && es[|es| - 1] == Spans(tenant, [a]);
    OneSpanBatch(env.price, RunAll(env, EMPTY, ds), tenant, a);
  }

  /** The last arrival of an attempt is what a window reads of it. */
  lemma LastView(env: Environment, ds: seq<Delivery>, tenant: TenantId, a: Arrival, k: EventKey, start: int, end: int)
    requires ArrivalOf(a, tenant, k)
    ensures ViewOf(RunAll(env, EMPTY, ds + [Spans(tenant, [a])]).costs, k, start, end) ==
            Visible(env.price, tenant, a, start, end)
  {
    RunLast(env, ds, tenant, a);
  }

  /** Redelivering an arrival changes no contents. */
  lemma Redelivered(env: Environment, ds: seq<Delivery>, tenant: TenantId, a: Arrival)
    requires Ingests(ds, tenant, a)
    ensures IsAttempt(a) && SameArrivals(ds, ds + [Spans(tenant, [a])])
  {
    var d := Spans(tenant, [a]);
    IngestsAttempts(ds, tenant, a);
    IngestedAttempts([a]);
    forall t, x ensures Ingests(ds + [d], t, x) <==> Ingests(ds, t, x) {
      IngestsPush(ds, d, t, x);
    }
    BatchDeliversNoCall(ds, tenant, [a]);
  }

  lemma SameArrivalsSameContents(ds: seq<Delivery>, es: seq<Delivery>)
    requires SameArrivals(ds, es)
    ensures SameContents(ds, es)
  {
    forall tenant, s ensures IngestsSpan(ds, tenant, s) <==> IngestsSpan(es, tenant, s) {
      if a :| Ingests(ds, tenant, a) && a.span == s {
        assert Ingests(es, tenant, a);
      }
      if a :| Ingests(es, tenant, a) && a.span == s {
        assert Ingests(ds, tenant, a);
      }
    }
  }

  /**
   * However the same arrivals, each at its own time, are ordered, batched or repeated, a window
   * reads the same; the clock may stand anywhere, also behind an earlier reading.
   */
  ghost predicate ViewsStable(env: Environment, ds: seq<Delivery>, start: int, end: int) {
    forall es :: SameArrivals(ds, es) ==> SameViews(RunAll(env, EMPTY, ds), RunAll(env, EMPTY, es), start, end)
  }

  /**
   * What a window report reads is independent of delivery exactly when the readings of every
   * attempt agree about the window: all inside at one cost, or all outside.
   */
  lemma ViewsStableIff(env: Environment, ds: seq<Delivery>, start: int, end: int)
    requires Consistent(ds)
    ensures ViewsStable(env, ds, start, end) <==> SteadyViews(env.price, ds, ds, start, end)
  {
    if SteadyViews(env.price, ds, ds, start, end) {
      forall es | SameArrivals(ds, es)
        ensures SameViews(RunAll(env, EMPTY, ds), RunAll(env, EMPTY, es), start, end)
      {
        SameArrivalsSameContents(ds, es);
        ViewsAgree(env, ds, es, start, end);
      }
    }
    if ViewsStable(env, ds, start, end) {
      forall tenant, a, b | Ingests(ds, tenant, a) && Ingests(ds, tenant, b) && SameAttempt(a.span, b.span)
        ensures Visible(env.price, tenant, a, start, end) == Visible(env.price, tenant, b, start, end)
      {
        StableForcesSteady(env, ds, tenant, a, b, start, end);
      }
    }
  }

  lemma StableForcesSteady(env: Environment, ds: seq<Delivery>, tenant: TenantId, a: Arrival, b: Arrival, start: int, end: int)
    requires ViewsStable(env, ds, start, end)
    requires Ingests(ds, tenant, a) && Ingests(ds, tenant, b) && SameAttempt(a.span, b.span)
    ensures Visible(env.price, tenant, a, start, end) == Visible(env.price, tenant, b, start, end)
  {
    var k := (tenant, a.span.runId, a.span.payload.value.attemptId);
    StableViewIsVisible(env, ds, tenant, a, k, start, end);
    StableViewIsVisible(env, ds, tenant, b, k, start, end);
  }

  lemma StableViewIsVisible(env: Environment, ds: seq<Delivery>, tenant: TenantId, a: Arrival, k: EventKey, start: int, end: int)
    requires ViewsStable(env, ds, start, end) && Ingests(ds, tenant, a) && ArrivalOf(a, tenant, k)
    ensures ViewOf(RunAll(env, EMPTY, ds).costs, k, start, end) == Visible(env.price, tenant, a, start, end)
  {
    Redelivered(env, ds, tenant, a);
    LastView(env, ds, tenant, a, k, start, end);
    ViewAt(RunAll(env, EMPTY, ds), RunAll(env, EMPTY, ds + [Spans(tenant, [a])]), k, start, end);
  }

  lemma ViewAt(s: State, t: State, k: EventKey, start: int, end: int)
    requires SameViews(s, t, start, end)
    ensures ViewOf(s.costs, k, start, end) == ViewOf(t.costs, k, start, end)
  {
  }

  // ----- the same with a clock that runs forward -----

  /** Readings taken one after the other, between lo and hi. */
  predicate ReadingIn(x: Reading, lo: int, hi: int) {
    lo <= x.pricedAt <= x.occurredAt <= x.startedAt <= hi
  }

  /** All readings of a delivery sequence, in the order they are taken. */
  ghost function Clocks(ds: seq<Delivery>): (rs: seq<Reading>) {
    if ds == [] then []
    else
      var last := ds[|ds| - 1];
      Clocks(ds[..|ds| - 1]) +
      if last.Spans? then seq(|last.arrivals|, i requires 0 <= i < |last.arrivals| => last.arrivals[i].clock) else []
  }

  /** Delivered between lo and hi by a clock that never runs backward. */
  ghost predicate InClockOrder(ds: seq<Delivery>, lo: int, hi: int) {
    && (forall i :: 0 <= i < |Clocks(ds)| ==> ReadingIn(Clocks(ds)[i], lo, hi))
    && (forall i, j :: 0 <= i < j < |Clocks(ds)| ==> Clocks(ds)[i].startedAt <= Clocks(ds)[j].pricedAt)
  }

  /** Whatever is delivered in that time and contains what ds does, a window reads the same. */
  ghost predicate ViewsStableBetween(env: Environment, ds: seq<Delivery>, lo: int, hi: int, start: int, end: int) {
    forall es, fs :: SameContents(ds, es) && SameContents(ds, fs) && InClockOrder(es, lo, hi) && InClockOrder(fs, lo, hi) ==>
                       SameViews(RunAll(env, EMPTY, es), RunAll(env, EMPTY, fs), start, end)
  }

  /** Every ingested span reads the same in the window at all times between lo and hi. */
  ghost predicate SteadyBetween(book: PriceBook, ds: seq<Delivery>, lo: int, hi: int, start: int, end: int) {
    forall tenant, s, x, y :: IngestsSpan(ds, tenant, s) && s.payload.Some? && ReadingIn(x, lo, hi) && ReadingIn(y, lo, hi) ==>
                                Visible(book, tenant, Arrival(s, x), start, end) == Visible(book, tenant, Arrival(s, y), start, end)
  }

  function Restamp(a: Arrival, now: int): (b: Arrival) {
    a.(clock := Reading(now, now, now))
  }

  function RestampBatch(arrivals: seq<Arrival>, now: int): (r: seq<Arrival>)
    ensures |r| == |arrivals| && forall i :: 0 <= i < |r| ==> r[i] == Restamp(arrivals[i], now)
  {
    seq(|arrivals|, i requires 0 <= i < |arrivals| => Restamp(arrivals[i], now))
  }

  /** The same deliveries, all read at one moment. */
  ghost function RestampAll(ds: seq<Delivery>, now: int): (es: seq<Delivery>)
    ensures |es| == |ds|
    ensures forall i :: 0 <= i < |ds| ==>
              es[i] == if ds[i].Spans? then Spans(ds[i].tenant, RestampBatch(ds[i].arrivals, now)) else ds[i]
  {
    seq(|ds|, i requires 0 <= i < |ds| =>
      if ds[i].Spans? then Spans(ds[i].tenant, RestampBatch(ds[i].arrivals, now)) else ds[i])
  }

  lemma {:induction false} RestampedIngested(arrivals: seq<Arrival>, now: int)
    ensures Ingested(RestampBatch(arrivals, now)) == RestampBatch(Ingested(arrivals), now)
  {
    if arrivals != [] {
      RestampedIngested(arrivals[1..], now);
      assert RestampBatch(arrivals, now)[1..] == RestampBatch(arrivals[1..], now);
      RestampCons(arrivals[0], Ingested(arrivals[1..]), now);
    }
  }

  lemma RestampCons(a: Arrival, rest: seq<Arrival>, now: int)
    ensures RestampBatch([a] + rest, now) == [Restamp(a, now)] + RestampBatch(rest, now)
    ensures RestampBatch([] + rest, now) == [] + RestampBatch(rest, now)
  {
    assert [] + rest == rest;
  }

  lemma RestampedContents(ds: seq<Delivery>, now: int)
    ensures SameContents(ds, RestampAll(ds, now))
  {
    var es := RestampAll(ds, now);
    forall tenant, s ensures IngestsSpan(ds, tenant, s) <==> IngestsSpan(es, tenant, s) {
      if a :| Ingests(ds, tenant, a) && a.span == s {
        RestampedForward(ds, now, tenant, a);
      }
      if a :| Ingests(es, tenant, a) && a.span == s {
        var b := RestampedBackward(ds, now, tenant, a);
      }
    }
    forall c ensures DeliversCall(ds, c) <==> DeliversCall(es, c) {
      if i :| 0 <= i < |ds| && ds[i] == Outcome(c) {
        assert es[i] == Outcome(c);
      }
      if i :| 0 <= i < |es| && es[i] == Outcome(c) {
        assert ds[i] == Outcome(c);
      }
    }
  }

  lemma RestampedForward(ds: seq<Delivery>, now: int, tenant: TenantId, a: Arrival)
    requires Ingests(ds, tenant, a)
    ensures Ingests(RestampAll(ds, now), tenant, Restamp(a, now))
  {
    var i :| 0 <= i < |ds| && ds[i].Spans? && ds[i].tenant == tenant && a in Ingested(ds[i].arrivals);
    RestampedIngested(ds[i].arrivals, now);
    var kept := Ingested(ds[i].arrivals);
    var j :| 0 <= j < |kept| && kept[j] == a;
    assert RestampBatch(kept, now)[j] == Restamp(a, now);
    assert RestampAll(ds, now)[i].Spans?;
  }

  lemma RestampedBackward(ds: seq<Delivery>, now: int, tenant: TenantId, a: Arrival) returns (b: Arrival)
    requires Ingests(RestampAll(ds, now), tenant, a)
    ensures Ingests(ds, tenant, b) && b.span == a.span
  {
    var es := RestampAll(ds, now);
    var i :| 0 <= i < |es| && es[i].Spans? && es[i].tenant == tenant && a in Ingested(es[i].arrivals);
    RestampedIngested(ds[i].arrivals, now);
    var kept := Ingested(ds[i].arrivals);
    var j :| 0 <= j < |kept| && RestampBatch(kept, now)[j] == a;
    b := kept[j];
    assert ds[i].Spans?;
  }

  lemma {:induction false} RestampedClocks(ds: seq<Delivery>, now: int)
    ensures forall i :: 0 <= i < |Clocks(RestampAll(ds, now))| ==> Clocks(RestampAll(ds, now))[i] == Reading(now, now, now)
  {
    if ds != [] {
      var n := |ds| - 1;
      RestampedClocks(ds[..n], now);
      assert RestampAll(ds, now)[..n] == RestampAll(ds[..n], now);
    }
  }

  /** Everything at lo, then one ingested span once more at x: the same contents, in clock order. */
  lemma ReadLast(ds: seq<Delivery>, tenant: TenantId, s: Span, x: Reading, lo: int, hi: int)
    requires IngestsSpan(ds, tenant, s) && ReadingIn(x, lo, hi)
    ensures
      var es := RestampAll(ds, lo) + [Spans(tenant, [Arrival(s, x)])];
      SameContents(ds, es) && InClockOrder(es, lo, hi)
  {
    RestampedContents(ds, lo);
    AddedSpanSameContents(RestampAll(ds, lo), tenant, Arrival(s, x));
    RestampedClocks(ds, lo);
    OneMoreReading(RestampAll(ds, lo), tenant, Arrival(s, x), lo, hi);
  }

  lemma OneMoreReading(front: seq<Delivery>, tenant: TenantId, a: Arrival, lo: int, hi: int)
    requires ReadingIn(a.clock, lo, hi) && forall i :: 0 <= i < |Clocks(front)| ==> Clocks(front)[i] == Reading(lo, lo, lo)
    ensures InClockOrder(front + [Spans(tenant, [a])], lo, hi)
  {
    var es := front + [Spans(tenant, [a])];
    assert es[..|es| - 1] == front && es[|es| - 1] == Spans(tenant, [a]);
    assert Clocks(es) == Clocks(front) + [a.clock];
  }

  lemma AddedSpanSameContents(ds: seq<Delivery>, tenant: TenantId, a: Arrival)
    requires IngestsSpan(ds, tenant, a.span)
    ensures IsAttempt(a) && SameContents(ds, ds + [Spans(tenant, [a])])
  {
    var d := Spans(tenant, [a]);
    var b :| Ingests(ds, tenant, b) && b.span == a.span;
    IngestsAttempts(ds, tenant, b);
    IngestedAttempts([a]);
    forall t, s ensures IngestsSpan(ds, t, s) <==> IngestsSpan(ds + [d], t, s) {
      if x :| Ingests(ds, t, x) && x.span == s {
        IngestsPush(ds, d, t, x);
      }
      if x :| Ingests(ds + [d], t, x) && x.span == s {
        IngestsPush(ds, d, t, x);
      }
    }
    BatchDeliversNoCall(ds, tenant, [a]);
  }

  lemma {:induction false} IngestedIsRead(ds: seq<Delivery>, tenant: TenantId, a: Arrival, lo: int, hi: int)
    requires Ingests(ds, tenant, a) && InClockOrder(ds, lo, hi)
    ensures ReadingIn(a.clock, lo, hi)
  {
    ClockOf(ds, tenant, a);
  }

  lemma {:induction false} ClockOf(ds: seq<Delivery>, tenant: TenantId, a: Arrival)
    requires Ingests(ds, tenant, a)
    ensures a.clock in Clocks(ds)
  {
    var front, last := ds[..|ds| - 1], ds[|ds| - 1];
    assert ds == front + [last];
    IngestsPush(front, last, tenant, a);
    if Ingests(front, tenant, a) {
      ClockOf(front, tenant, a);
    } else {
      var j :| 0 <= j < |last.arrivals| && last.arrivals[j] == a;
      assert Clocks(ds)[|Clocks(front)| + j] == a.clock;
    }
  }

  /**
   * With a clock that runs forward between lo and hi, what a window reads is independent of
   * delivery exactly when every ingested span reads the same at all those times.
   */
  lemma ViewsStableBetweenIff(env: Environment, ds: seq<Delivery>, lo: int, hi: int, start: int, end: int)
    requires Consistent(ds)
    ensures ViewsStableBetween(env, ds, lo, hi, start, end) <==> SteadyBetween(env.price, ds, lo, hi, start, end)
  {
    if SteadyBetween(env.price, ds, lo, hi, start, end) {
      forall es, fs | SameContents(ds, es) && SameContents(ds, fs) && InClockOrder(es, lo, hi) && InClockOrder(fs, lo, hi)
        ensures SameViews(RunAll(env, EMPTY, es), RunAll(env, EMPTY, fs), start, end)
      {
        ConsistencyTransfers(ds, es);
        SteadyBetweenIsSteady(env.price, ds, es, fs, lo, hi, start, end);
        ViewsAgree(env, es, fs, start, end);
      }
    }
    if ViewsStableBetween(env, ds, lo, hi, start, end) {
      forall tenant, s, x, y | IngestsSpan(ds, tenant, s) && s.payload.Some? && ReadingIn(x, lo, hi) && ReadingIn(y, lo, hi)
        ensures Visible(env.price, tenant, Arrival(s, x), start, end) == Visible(env.price, tenant, Arrival(s, y), start, end)
      {
        StableBetweenForcesSteady(env, ds, tenant, s, x, y, lo, hi, start, end);
      }
    }
  }

  lemma SteadyBetweenIsSteady(book: PriceBook, ds: seq<Delivery>, es: seq<Delivery>, fs: seq<Delivery>, lo: int, hi: int,
                              start: int, end: int)
    requires Consistent(ds) && SteadyBetween(book, ds, lo, hi, start, end)
    requires SameContents(ds, es) && SameContents(ds, fs) && InClockOrder(es, lo, hi) && InClockOrder(fs, lo, hi)
    ensures SteadyViews(book, es, fs, start, end)
  {
    forall tenant, a, b | Ingests(es, tenant, a) && Ingests(fs, tenant, b) && SameAttempt(a.span, b.span)
      ensures Visible(book, tenant, a, start, end) == Visible(book, tenant, b, start, end)
    {
      IngestedIsRead(es, tenant, a, lo, hi);
      IngestedIsRead(fs, tenant, b, lo, hi);
      SteadyPair(book, ds, es, fs, tenant, a, b);
      SteadyVisible(book, ds, tenant, a, b, lo, hi, start, end);
    }
  }

  lemma SteadyVisible(book: PriceBook, ds: seq<Delivery>, tenant: TenantId, a: Arrival, b: Arrival, lo: int, hi: int, start: int, end: int)
    requires SteadyBetween(book, ds, lo, hi, start, end) && IngestsSpan(ds, tenant, a.span) && a.span.payload.Some?
    requires a.span.payload == b.span.payload && a.span.runId == b.span.runId
    requires ReadingIn(a.clock, lo, hi) && ReadingIn(b.clock, lo, hi)
    ensures Visible(book, tenant, a, start, end) == Visible(book, tenant, b, start, end)
  {
    assert Visible(book, tenant, Arrival(a.span, a.clock), start, end) == Visible(book, tenant, Arrival(a.span, b.clock), start, end);
  }

  lemma SteadyPair(book: PriceBook, ds: seq<Delivery>, es: seq<Delivery>, fs: seq<Delivery>, tenant: TenantId, a: Arrival, b: Arrival)
    requires Consistent(ds) && SameContents(ds, es) && SameContents(ds, fs)
    requires Ingests(es, tenant, a) && Ingests(fs, tenant, b) && SameAttempt(a.span, b.span)
    ensures IngestsSpan(ds, tenant, a.span) && a.span.payload == b.span.payload && a.span.payload.Some?
  {
    assert IngestsSpan(es, tenant, a.span) && IngestsSpan(fs, tenant, b.span);
  }

  lemma StableBetweenForcesSteady(env: Environment, ds: seq<Delivery>, tenant: TenantId, s: Span, x: Reading, y: Reading,
                                  lo: int, hi: int, start: int, end: int)
    requires ViewsStableBetween(env, ds, lo, hi, start, end)
    requires IngestsSpan(ds, tenant, s) && s.payload.Some? && ReadingIn(x, lo, hi) && ReadingIn(y, lo, hi)
    ensures Visible(env.price, tenant, Arrival(s, x), start, end) == Visible(env.price, tenant, Arrival(s, y), start, end)
  {
    var front := RestampAll(ds, lo);
    ReadLast(ds, tenant, s, x, lo, hi);
    ReadLast(ds, tenant, s, y, lo, hi);
    AddedSpanSameContents(ds, tenant, Arrival(s, x));
    StableBetweenAt(env, ds, front + [Spans(tenant, [Arrival(s, x)])], front + [Spans(tenant, [Arrival(s, y)])], lo, hi, start, end);
    SameLastViews(env, front, tenant, s, x, y, start, end);
  }

  lemma StableBetweenAt(env: Environment, ds: seq<Delivery>, es: seq<Delivery>, fs: seq<Delivery>, lo: int, hi: int, start: int, end: int)
    requires ViewsStableBetween(env, ds, lo, hi, start, end)
    requires SameContents(ds, es) && SameContents(ds, fs) && InClockOrder(es, lo, hi) && InClockOrder(fs, lo, hi)
    ensures SameViews(RunAll(env, EMPTY, es), RunAll(env, EMPTY, fs), start, end)
  {
  }

  lemma SameLastViews(env: Environment, front: seq<Delivery>, tenant: TenantId, s: Span, x: Reading, y: Reading, start: int, end: int)
    requires IsAttempt(Arrival(s, x))
    requires SameViews(RunAll(env, EMPTY, front + [Spans(tenant, [Arrival(s, x)])]),
                       RunAll(env, EMPTY, front + [Spans(tenant, [Arrival(s, y)])]), start, end)
    ensures Visible(env.price, tenant, Arrival(s, x), start, end) == Visible(env.price, tenant, Arrival(s, y), start, end)
  {
    var k := (tenant, s.runId, s.payload.value.attemptId);
    LastView(env, front, tenant, Arrival(s, x), k, start, end);
    LastView(env, front, tenant, Arrival(s, y), k, start, end);
    ViewAt(RunAll(env, EMPTY, front + [Spans(tenant, [Arrival(s, x)])]),
           RunAll(env, EMPTY, front + [Spans(tenant, [Arrival(s, y)])]), k, start, end);
  }

  /** At-least-once delivery is not harmless: a redelivered span leaves the window it was in. */
  lemma RedeliveryMovesEvent(env: Environment) returns (once: seq<Delivery>, twice: seq<Delivery>, k: EventKey)
    ensures SameContents(once, twice)
    ensures ViewOf(RunAll(env, EMPTY, once).costs, k, 0, 10).Some?
    ensures ViewOf(RunAll(env, EMPTY, twice).costs, k, 0, 10).None?
    ensures RunAll(env, EMPTY, once).costs.Keys == RunAll(env, EMPTY, twice).costs.Keys == {k}
    ensures k.0 == "t" && EventKeyOf(RunAll(env, EMPTY, once).costs[k]) == k
    ensures RunAll(env, EMPTY, once).outcomes == map[]
  {
    var early, late := PlainArrival("r", "1", None, 0), PlainArrival("r", "1", None, 100);
    once := [Spans("t", [early])];
    twice := once + [Spans("t", [late])];
    k := ("t", "r", "1");
    SameSpansTwice("t", early, late);
    assert once[..0] == [] && twice[..1] == once;
    BatchKeepsOutcomes(env.price, EMPTY, "t", [early]);
    OneSpanBatch(env.price, EMPTY, "t", early);
    OneSpanBatch(env.price, RunAll(env, EMPTY, once), "t", late);
  }

  lemma SameSpansTwice(tenant: TenantId, a: Arrival, b: Arrival)
    requires a.span == b.span && IsAttempt(a)
    ensures SameContents([Spans(tenant, [a])], [Spans(tenant, [a])] + [Spans(tenant, [b])])
  {
    var once, d := [Spans(tenant, [a])], Spans(tenant, [b]);
    IngestedAttempts([a]);
    IngestedAttempts([b]);
    assert once[0].Spans? && a in Ingested(once[0].arrivals);
    assert Ingests(once, tenant, a);
    forall t, s ensures IngestsSpan(once, t, s) <==> IngestsSpan(once + [d], t, s) {
      if x :| Ingests(once, t, x) && x.span == s {
        IngestsPush(once, d, t, x);
      }
      if x :| Ingests(once + [d], t, x) && x.span == s {
        IngestsPush(once, d, t, x);
      }
    }
  }
}
