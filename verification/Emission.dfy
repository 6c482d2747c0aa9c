/** The bounded, non-blocking buffer between the host call path and the cost-event store. */
module Emission {
  import opened Records

  /** What the emitter holds and has done; persisted lists the successful writes in order. */
  datatype State = State(queue: seq<CostEvent>, dropped: nat, persisted: seq<CostEvent>)

  /** One call on the emitter; fails says which repository writes of a drain raise. */
  datatype Call = Enqueue(event: CostEvent) | Drain(fails: nat -> bool)

  /** The events of a drain whose write succeeds, the first of them being write number k. */
  ghost function Survivors(queue: seq<CostEvent>, k: nat, fails: nat -> bool): (kept: seq<CostEvent>) {
    if queue == [] then []
    else (if fails(k) then [] else [queue[0]]) + Survivors(queue[1..], k + 1, fails)
  }

  ghost function Step(s: State, maxQueue: nat, call: Call): (t: State) {
    match call
    case Enqueue(e) =>
      if |s.queue| >= maxQueue then s.(dropped := s.dropped + 1) else s.(queue := s.queue + [e])
    case Drain(fails) =>
      var kept := Survivors(s.queue, 0, fails);
      SurvivorsAreFewer(s.queue, 0, fails);
      State([], s.dropped + (|s.queue| - |kept|), s.persisted + kept)
  }

  ghost function After(maxQueue: nat, calls: seq<Call>): (s: State) {
    if calls == [] then State([], 0, [])
    else Step(After(maxQueue, calls[..|calls| - 1]), maxQueue, calls[|calls| - 1])
  }

  class Emitter {
    const maxQueue: nat
    var queue: seq<CostEvent>
    var dropped: nat
    ghost var persisted: seq<CostEvent>

    ghost function Now(): (s: State)
      reads this
    {
      State(queue, dropped, persisted)
    }

    constructor (maxQueue: nat)
      ensures this.maxQueue == maxQueue && Now() == After(maxQueue, [])
    {
      this.maxQueue := maxQueue;
      queue, dropped, persisted := [], 0, [];
    }

    method Enqueue(event: CostEvent)
      modifies this
      ensures Now() == Step(old(Now()), maxQueue, Call.Enqueue(event))
    {
      if |queue| >= maxQueue {
        dropped := dropped + 1;
        return;
      }
      queue := queue + [event];
    }

    /** A failed write is counted and skipped; the loop ends with an empty queue. */
    method Drain(fails: nat -> bool) returns (count: nat)
      modifies this
      ensures Now() == Step(old(Now()), maxQueue, Call.Drain(fails))
      ensures queue == [] && count == |persisted| - |old(persisted)|
    {
      count := 0;
      ghost var all := Survivors(queue, 0, fails);
      SurvivorsAreFewer(queue, 0, fails);
      var attempt := 0;
      while queue != []
        invariant attempt <= |old(queue)| && queue == old(queue)[attempt..]
        invariant persisted + Survivors(queue, attempt, fails) == old(persisted) + all
        invariant count == |persisted| - |old(persisted)|
        invariant dropped + count == old(dropped) + attempt
        decreases |queue|
      {
        SurvivorsStep(persisted, queue, attempt, fails);
        var event := queue[0];
        queue := queue[1..];
        if fails(attempt) {
          dropped := dropped + 1;
        } else {
          persisted := persisted + [event];
          count := count + 1;
        }
        attempt := attempt + 1;
      }
    }
  }

  lemma SurvivorsStep(done: seq<CostEvent>, queue: seq<CostEvent>, k: nat, fails: nat -> bool)
    requires queue != []
    ensures done + Survivors(queue, k, fails) ==
            (if fails(k) then done else done + [queue[0]]) + Survivors(queue[1..], k + 1, fails)
  {
  }

  lemma {:induction false} SurvivorsAreFewer(queue: seq<CostEvent>, k: nat, fails: nat -> bool)
    ensures |Survivors(queue, k, fails)| <= |queue|
    ensures Subsequence(Survivors(queue, k, fails), queue)
    decreases |queue|
  {
    if queue != [] {
      SurvivorsAreFewer(queue[1..], k + 1, fails);
      var kept := Survivors(queue[1..], k + 1, fails);
      assert queue == [queue[0]] + queue[1..];
      if fails(k) {
        assert Survivors(queue, k, fails) == kept;
        SubsequencePrepend(kept, [], queue[1..], [queue[0]]);
        assert [] + kept == kept;
      } else {
        SubsequencePrepend(kept, [queue[0]], queue[1..], [queue[0]]);
      }
    }
  }

  // ----- subsequences: delete some elements, keep the order -----

  ghost predicate Subsequence(a: seq<CostEvent>, b: seq<CostEvent>) {
    if a == [] then true
    else if b == [] then false
    else
      var m, n := |a| - 1, |b| - 1;
      (a[m] == b[n] && Subsequence(a[..m], b[..n])) || Subsequence(a, b[..n])
  }

  lemma SubsequencePush(a: seq<CostEvent>, b: seq<CostEvent>, e: CostEvent)
    requires Subsequence(a, b)
    ensures Subsequence(a + [e], b + [e]) && Subsequence(a, b + [e])
  {
    assert (a + [e])[..|a|] == a && (b + [e])[..|b|] == b;
  }

  lemma Regroup(p: seq<CostEvent>, a: seq<CostEvent>)
    requires a != []
    ensures p + a == (p + a[..|a| - 1]) + [a[|a| - 1]]
  {
  }

  lemma {:induction false} SubsequencePrepend(a: seq<CostEvent>, p: seq<CostEvent>, b: seq<CostEvent>, q: seq<CostEvent>)
    requires Subsequence(a, b) && Subsequence(p, q)
    ensures Subsequence(p + a, q + b)
    decreases |b|
  {
    if b == [] {
      assert p + a == p && q + b == q;
    } else {
      var n := |b| - 1;
      Regroup(q, b);
      if Subsequence(a, b[..n]) {
        SubsequencePrepend(a, p, b[..n], q);
        SubsequencePush(p + a, q + b[..n], b[n]);
      } else {
        SubsequencePrepend(a[..|a| - 1], p, b[..n], q);
        SubsequencePush(p + a[..|a| - 1], q + b[..n], b[n]);
        Regroup(p, a);
      }
    }
  }

  lemma {:induction false} SubsequenceTransitive(a: seq<CostEvent>, b: seq<CostEvent>, c: seq<CostEvent>)
    requires Subsequence(a, b) && Subsequence(b, c)
    ensures Subsequence(a, c)
    decreases |c|
  {
    if a != [] && c != [] {
      var l, m, n := |a| - 1, |b| - 1, |c| - 1;
      if Subsequence(b, c[..n]) {
        SubsequenceTransitive(a, b, c[..n]);
      } else if Subsequence(a, b[..m]) {
        SubsequenceTransitive(a, b[..m], c[..n]);
      } else {
        SubsequenceTransitive(a[..l], b[..m], c[..n]);
      }
    }
  }

  lemma {:induction false} SubsequenceOfItself(a: seq<CostEvent>)
    ensures Subsequence(a, a)
  {
    if a != [] {
      SubsequenceOfItself(a[..|a| - 1]);
    }
  }

  lemma {:induction false} SubsequenceSize(a: seq<CostEvent>, b: seq<CostEvent>)
    requires Subsequence(a, b)
    ensures |a| <= |b| && (|a| == |b| <==> a == b)
    decreases |b|
  {
    if a != [] {
      var m, n := |a| - 1, |b| - 1;
      if Subsequence(a, b[..n]) {
        SubsequenceSize(a, b[..n]);
      } else {
        SubsequenceSize(a[..m], b[..n]);
        assert a == a[..m] + [a[m]] && b == b[..n] + [b[n]];
      }
    }
  }

  // ----- every interleaving -----

  /** The events offered, in call order. */
  ghost function Offered(calls: seq<Call>): (events: seq<CostEvent>) {
    if calls == [] then []
    else
      var last := calls[|calls| - 1];
      Offered(calls[..|calls| - 1]) + if last.Enqueue? then [last.event] else []
  }

  /**
   * For every interleaving of calls and every pattern of failures: nothing is lost uncounted,
   * the queue stays bounded, what was persisted and what is queued keep the offer order, and the
   * drop counter is zero exactly when every offered event is persisted or queued, in order.
   */
  lemma {:induction false} EveryEventAccounted(maxQueue: nat, calls: seq<Call>)
    ensures
      var s := After(maxQueue, calls);
      && |Offered(calls)| == |s.queue| + s.dropped + |s.persisted|
      && |s.queue| <= maxQueue
      && Subsequence(s.persisted + s.queue, Offered(calls))
      && Subsequence(s.persisted, Offered(calls))
      && (s.dropped == 0 <==> s.persisted + s.queue == Offered(calls))
  {
    var s := After(maxQueue, calls);
    if calls != [] {
      var front, last := calls[..|calls| - 1], calls[|calls| - 1];
      EveryEventAccounted(maxQueue, front);
      StepKeepsOrder(After(maxQueue, front), maxQueue, last, Offered(front));
    }
    SubsequenceOfItself(s.persisted);
    SubsequencePrepend([], s.persisted, s.queue, s.persisted);
    assert s.persisted + [] == s.persisted;
    SubsequenceTransitive(s.persisted, s.persisted + s.queue, Offered(calls));
    SubsequenceSize(s.persisted + s.queue, Offered(calls));
  }

  lemma StepKeepsOrder(s: State, maxQueue: nat, call: Call, offered: seq<CostEvent>)
    requires Subsequence(s.persisted + s.queue, offered)
    ensures
      var t := Step(s, maxQueue, call);
      Subsequence(t.persisted + t.queue, offered + if call.Enqueue? then [call.event] else [])
  {
    match call
    case Enqueue(e) =>
      SubsequencePush(s.persisted + s.queue, offered, e);
      assert s.persisted + (s.queue + [e]) == (s.persisted + s.queue) + [e];
    case Drain(fails) =>
      SurvivorsAreFewer(s.queue, 0, fails);
      SubsequenceOfItself(s.persisted);
      var kept := Survivors(s.queue, 0, fails);
      SubsequencePrepend(kept, s.persisted, s.queue, s.persisted);
      SubsequenceTransitive(s.persisted + kept, s.persisted + s.queue, offered);
      assert (s.persisted + kept) + [] == s.persisted + kept && offered + [] == offered;
  }
}
