/** Entity aliasing: the closure that re-joins keys asserted to be the same entity. */
module Alias {

  type EntityKey = (string, string)

  datatype EntityAlias = EntityAlias(source: EntityKey, target: EntityKey)

  /** An asserted edge between a and b, in either direction. */
  predicate Linked(aliases: seq<EntityAlias>, a: EntityKey, b: EntityKey) {
    EntityAlias(a, b) in aliases || EntityAlias(b, a) in aliases
  }

  ghost predicate IsPath(aliases: seq<EntityAlias>, p: seq<EntityKey>) {
    |p| > 0 && forall i :: 0 <= i < |p| - 1 ==> Linked(aliases, p[i], p[i + 1])
  }

  ghost predicate Joins(aliases: seq<EntityAlias>, p: seq<EntityKey>, a: EntityKey, b: EntityKey) {
    IsPath(aliases, p) && p[0] == a && p[|p| - 1] == b
  }

  /** a and b are in the same connected component of the asserted edges. */
  ghost predicate SameEntity(aliases: seq<EntityAlias>, a: EntityKey, b: EntityKey) {
    exists p :: Joins(aliases, p, a, b)
  }

  // ----- SameEntity is an equivalence generated by the edges -----

  lemma SameEntityReflexive(aliases: seq<EntityAlias>, a: EntityKey)
    ensures SameEntity(aliases, a, a)
  {
    assert Joins(aliases, [a], a, a);
  }

  lemma SameEntityStep(aliases: seq<EntityAlias>, a: EntityKey, b: EntityKey, c: EntityKey)
    requires SameEntity(aliases, a, b) && Linked(aliases, b, c)
    ensures SameEntity(aliases, a, c)
  {
    var p :| Joins(aliases, p, a, b);
    assert Joins(aliases, p + [c], a, c);
  }

  lemma {:induction false} SameEntitySymmetric(aliases: seq<EntityAlias>, a: EntityKey, b: EntityKey)
    requires SameEntity(aliases, a, b)
    ensures SameEntity(aliases, b, a)
  {
    var p :| Joins(aliases, p, a, b);
    var q := seq(|p|, i requires 0 <= i < |p| => p[|p| - 1 - i]);
    forall i | 0 <= i < |q| - 1
      ensures Linked(aliases, q[i], q[i + 1])
    {
      assert Linked(aliases, p[|p| - 2 - i], p[|p| - 2 - i + 1]);
    }
    assert Joins(aliases, q, b, a);
  }

  lemma SameEntityTransitive(aliases: seq<EntityAlias>, a: EntityKey, b: EntityKey, c: EntityKey)
    requires SameEntity(aliases, a, b) && SameEntity(aliases, b, c)
    ensures SameEntity(aliases, a, c)
  {
    var p :| Joins(aliases, p, a, b);
    var q :| Joins(aliases, q, b, c);
    var r := p + q[1..];
    forall i | 0 <= i < |r| - 1
      ensures Linked(aliases, r[i], r[i + 1])
    {
      if i >= |p| - 1 {
        assert r[i] == q[i - (|p| - 1)] && r[i + 1] == q[i - (|p| - 1) + 1];
      }
    }
    assert Joins(aliases, r, a, c);
  }

  /** Only the undirected edges matter: not their order, direction or multiplicity. */
  lemma SameEntityInsensitive(aliases: seq<EntityAlias>, others: seq<EntityAlias>, a: EntityKey, b: EntityKey)
    requires forall e :: e in aliases ==> Linked(others, e.source, e.target)
    requires SameEntity(aliases, a, b)
    ensures SameEntity(others, a, b)
  {
    var p :| Joins(aliases, p, a, b);
    forall i | 0 <= i < |p| - 1
      ensures Linked(others, p[i], p[i + 1])
    {
      assert Linked(aliases, p[i], p[i + 1]);
    }
    assert Joins(others, p, a, b);
  }

  /** Same-entity claims survive every further alias. */
  lemma SameEntityMonotone(aliases: seq<EntityAlias>, more: seq<EntityAlias>, a: EntityKey, b: EntityKey)
    requires SameEntity(aliases, a, b)
    ensures SameEntity(aliases + more, a, b)
  {
    SameEntityInsensitive(aliases, aliases + more, a, b);
  }

  /** Joined through the new edge u-v, crossed in one of the two directions. */
  ghost predicate JoinedThrough(aliases: seq<EntityAlias>, u: EntityKey, v: EntityKey, a: EntityKey, b: EntityKey) {
    || SameEntity(aliases, a, b)
    || (SameEntity(aliases, a, u) && SameEntity(aliases, v, b))
    || (SameEntity(aliases, a, v) && SameEntity(aliases, u, b))
  }

  /** A new edge merges exactly the two classes of its ends and leaves every other pair alone. */
  lemma NewAliasMergesTwoClasses(aliases: seq<EntityAlias>, u: EntityKey, v: EntityKey, a: EntityKey, b: EntityKey)
    ensures SameEntity(aliases + [EntityAlias(u, v)], a, b) <==> JoinedThrough(aliases, u, v, a, b)
  {
    var wider := aliases + [EntityAlias(u, v)];
    if SameEntity(wider, a, b) {
      var p :| Joins(wider, p, a, b);
      PathStaysInMergedClass(aliases, u, v, p);
    }
    if SameEntity(aliases, a, b) {
      SameEntityMonotone(aliases, [EntityAlias(u, v)], a, b);
    } else if SameEntity(aliases, a, u) && SameEntity(aliases, v, b) {
      CrossNewAlias(aliases, u, v, u, v, a, b);
    } else if SameEntity(aliases, a, v) && SameEntity(aliases, u, b) {
      CrossNewAlias(aliases, u, v, v, u, a, b);
    }
  }

  lemma CrossNewAlias(aliases: seq<EntityAlias>, u: EntityKey, v: EntityKey,
                      x: EntityKey, y: EntityKey, a: EntityKey, b: EntityKey)
    requires (x, y) == (u, v) || (x, y) == (v, u)
    requires SameEntity(aliases, a, x) && SameEntity(aliases, y, b)
    ensures SameEntity(aliases + [EntityAlias(u, v)], a, b)
  {
    var wider := aliases + [EntityAlias(u, v)];
    SameEntityMonotone(aliases, [EntityAlias(u, v)], a, x);
    SameEntityMonotone(aliases, [EntityAlias(u, v)], y, b);
    assert wider[|aliases|] == EntityAlias(u, v);
    SameEntityStep(wider, a, x, y);
    SameEntityTransitive(wider, a, y, b);
  }

  lemma {:induction false} PathStaysInMergedClass(aliases: seq<EntityAlias>, u: EntityKey, v: EntityKey, p: seq<EntityKey>)
    requires IsPath(aliases + [EntityAlias(u, v)], p)
    ensures JoinedThrough(aliases, u, v, p[0], p[|p| - 1])
  {
    if |p| == 1 {
      SameEntityReflexive(aliases, p[0]);
    } else {
      var n := |p| - 1;
      PathStaysInMergedClass(aliases, u, v, p[..n]);
      assert Linked(aliases + [EntityAlias(u, v)], p[n - 1], p[n - 1 + 1]);
      if Linked(aliases, p[n - 1], p[n]) {
        StepInMergedClass(aliases, u, v, p[0], p[n - 1], p[n]);
      } else {
        SameEntityReflexive(aliases, u);
        SameEntityReflexive(aliases, v);
        CrossInMergedClass(aliases, u, v, p[0], p[n - 1], p[n]);
      }
    }
  }

  lemma StepInMergedClass(aliases: seq<EntityAlias>, u: EntityKey, v: EntityKey, a: EntityKey, b: EntityKey, c: EntityKey)
    requires JoinedThrough(aliases, u, v, a, b) && Linked(aliases, b, c)
    ensures JoinedThrough(aliases, u, v, a, c)
  {
    if SameEntity(aliases, a, b) {
      SameEntityStep(aliases, a, b, c);
    } else if SameEntity(aliases, a, u) && SameEntity(aliases, v, b) {
      SameEntityStep(aliases, v, b, c);
    } else {
      SameEntityStep(aliases, u, b, c);
    }
  }

  lemma CrossInMergedClass(aliases: seq<EntityAlias>, u: EntityKey, v: EntityKey, a: EntityKey, b: EntityKey, c: EntityKey)
    requires JoinedThrough(aliases, u, v, a, b) && ((b, c) == (u, v) || (b, c) == (v, u))
    requires SameEntity(aliases, u, u) && SameEntity(aliases, v, v)
    ensures JoinedThrough(aliases, u, v, a, c)
  {
    if !SameEntity(aliases, a, b) {
      // a already reached the far end, which is c, before crossing back
      assert SameEntity(aliases, a, c) || SameEntity(aliases, a, b) || SameEntity(aliases, c, b);
      if !SameEntity(aliases, a, c) {
        SameEntitySymmetric(aliases, c, b);
        SameEntityTransitive(aliases, a, b, c);
      }
    }
  }

  // ----- the code -----

  lemma LinkedPush(aliases: seq<EntityAlias>, alias: EntityAlias)
    ensures forall a, b :: Linked(aliases + [alias], a, b) <==>
                           || Linked(aliases, a, b)
                           || (a == alias.source && b == alias.target)
                           || (a == alias.target && b == alias.source)
  {
    forall a, b
      ensures EntityAlias(a, b) in aliases + [alias] <==> EntityAlias(a, b) in aliases || EntityAlias(a, b) == alias
    {
    }
  }

  /** Undirected adjacency over the asserted edges. */
  method Adjacency(aliases: seq<EntityAlias>) returns (out: map<EntityKey, seq<EntityKey>>)
    ensures forall a, b :: a in out && b in out[a] <==> Linked(aliases, a, b)
  {
    out := map[];
    for i := 0 to |aliases|
      invariant forall a, b :: a in out && b in out[a] <==> Linked(aliases[..i], a, b)
    {
      var alias := aliases[i];
      LinkedPush(aliases[..i], alias);
      assert aliases[..i + 1] == aliases[..i] + [alias];
      out := Append(out, alias.source, alias.target);
      out := Append(out, alias.target, alias.source);
    }
    assert aliases[..|aliases|] == aliases;
  }

  /** out.setdefault(k, []).append(v) */
  function Append(out: map<EntityKey, seq<EntityKey>>, k: EntityKey, v: EntityKey): (r: map<EntityKey, seq<EntityKey>>)
    ensures forall a, b :: a in r && b in r[a] <==> (a in out && b in out[a]) || (a == k && b == v)
  {
    out[k := (if k in out then out[k] else []) + [v]]
  }

  ghost function Universe(key: EntityKey, aliases: seq<EntityAlias>): (u: set<EntityKey>)
    ensures key in u
    ensures forall a, b :: Linked(aliases, a, b) ==> b in u
  {
    {key} + (set e | e in aliases :: e.source) + (set e | e in aliases :: e.target)
  }

  /** Every link out of a key of `from` stays inside `into`. */
  ghost predicate LinksInto(aliases: seq<EntityAlias>, from: set<EntityKey>, into: set<EntityKey>) {
    forall a, b :: a in from && Linked(aliases, a, b) ==> b in into
  }

  lemma {:induction false} ClosedSetHoldsPath(aliases: seq<EntityAlias>, closed: set<EntityKey>, p: seq<EntityKey>)
    requires IsPath(aliases, p) && p[0] in closed && LinksInto(aliases, closed, closed)
    ensures p[|p| - 1] in closed
  {
    if |p| > 1 {
      var n := |p| - 1;
      ClosedSetHoldsPath(aliases, closed, p[..n]);
      assert Linked(aliases, p[n - 1], p[n - 1 + 1]);
    }
  }

  /** The inner loop: unseen neighbours are marked seen and queued. */
  method Visit(neighbours: seq<EntityKey>, seen: set<EntityKey>, frontier: seq<EntityKey>)
    returns (marked: set<EntityKey>, queue: seq<EntityKey>)
    ensures marked == seen + (set x | x in neighbours)
    ensures (set x | x in queue) == (set x | x in frontier) + (marked - seen)
    ensures marked == seen ==> queue == frontier
  {
    marked, queue := seen, frontier;
    for i := 0 to |neighbours|
      invariant marked == seen + (set x | x in neighbours[..i])
      invariant (set x | x in queue) == (set x | x in frontier) + (marked - seen)
      invariant marked == seen ==> queue == frontier
    {
      var neighbour := neighbours[i];
      assert neighbours[..i + 1] == neighbours[..i] + [neighbour];
      if neighbour !in marked {
        marked := marked + {neighbour};
        assert (set x | x in queue + [neighbour]) == (set x | x in queue) + {neighbour};
        queue := queue + [neighbour];
      }
    }
    assert neighbours[..|neighbours|] == neighbours;
  }

  /** What the search has established: seen keys are the same entity, and only queued ones are open. */
  ghost predicate Searched(aliases: seq<EntityAlias>, key: EntityKey, seen: set<EntityKey>, open: set<EntityKey>) {
    && key in seen && open <= seen <= Universe(key, aliases)
    && (forall x :: x in seen ==> SameEntity(aliases, key, x))
    && LinksInto(aliases, seen - open, seen)
  }

  lemma SearchStep(aliases: seq<EntityAlias>, key: EntityKey, seen: set<EntityKey>, open: set<EntityKey>,
                   current: EntityKey, rest: set<EntityKey>, near: set<EntityKey>)
    requires Searched(aliases, key, seen, open) && current in open && open == rest + {current}
    requires forall b :: b in near <==> Linked(aliases, current, b)
    ensures Searched(aliases, key, seen + near, rest + ((seen + near) - seen))
  {
    forall x | x in near ensures SameEntity(aliases, key, x) {
      SameEntityStep(aliases, key, current, x);
    }
  }

  lemma SearchComplete(aliases: seq<EntityAlias>, key: EntityKey, seen: set<EntityKey>, x: EntityKey)
    requires Searched(aliases, key, seen, {}) && SameEntity(aliases, key, x)
    ensures x in seen
  {
    var p :| Joins(aliases, p, key, x);
    assert seen - {} == seen;
    ClosedSetHoldsPath(aliases, seen, p);
  }

  /** resolve_aliases: exactly the keys that are the same entity as key, on every edge list. */
  method ResolveAliases(key: EntityKey, aliases: seq<EntityAlias>) returns (seen: set<EntityKey>)
    ensures forall x :: x in seen <==> SameEntity(aliases, key, x)
  {
    var adjacency := Adjacency(aliases);
    seen := {key};
    var frontier := [key];
    SameEntityReflexive(aliases, key);
    while frontier != []
      invariant Searched(aliases, key, seen, set x | x in frontier)
      decreases Universe(key, aliases) - seen, |frontier|
    {
      ghost var open := set x | x in frontier;
      var current, rest := frontier[|frontier| - 1], frontier[..|frontier| - 1];
      assert frontier == rest + [current];
      var neighbours := if current in adjacency then adjacency[current] else [];
      SearchStep(aliases, key, seen, open, current, set x | x in rest, set x | x in neighbours);
      seen, frontier := Visit(neighbours, seen, rest);
    }
    forall x | SameEntity(aliases, key, x)
      ensures x in seen
    {
      assert (set k | k in frontier) == {};
      SearchComplete(aliases, key, seen, x);
    }
  }
}
