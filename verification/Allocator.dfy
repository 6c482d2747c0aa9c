/**
 * The largest-remainder allocator. Amounts are counted in quanta (10 decimal places),
 * so one quantum is 1.0 and a part is an integer; weights and totals are arbitrary
 * reals, including negative ones and totals that are not whole quanta.
 */
module Allocator {
  import opened Numeric

  datatype AllocateError = ZeroWeight | MissingAllocationKey

  datatype Result<+T> = Ok(value: T) | Err(error: AllocateError)

  // ----- the quantities the algorithm is about -----

  function Exact(total: real, weights: seq<real>): (e: seq<real>)
    requires Sum(weights) != 0.0
    ensures |e| == |weights|
    ensures forall k :: 0 <= k < |e| ==> e[k] == Share(total, weights[k], Sum(weights))
  {
    seq(|weights|, k requires 0 <= k < |weights| => Share(total, weights[k], Sum(weights)))
  }

  function Share(total: real, weight: real, weightTotal: real): (e: real)
    requires weightTotal != 0.0
  {
    total * weight / weightTotal
  }

  function Rounded(exact: seq<real>): (b: seq<int>)
    ensures |b| == |exact|
  {
    seq(|exact|, k requires 0 <= k < |exact| => HalfEven(exact[k]))
  }

  /** What each part still lacks: exact minus the given integer part. */
  function Leftover(exact: seq<real>, parts: seq<int>): (r: seq<real>)
    requires |exact| == |parts|
    ensures |r| == |exact|
    ensures forall k :: 0 <= k < |r| ==> r[k] == exact[k] - parts[k] as real
  {
    seq(|exact|, k requires 0 <= k < |exact| => exact[k] - parts[k] as real)
  }

  ghost function SquaredDeviation(exact: seq<real>, parts: seq<int>): (d: real)
    requires |exact| == |parts|
  {
    Sum(seq(|exact|, k requires 0 <= k < |exact| => Square(parts[k] as real - exact[k])))
  }

  /** The order the residue is handed out in: remainder first, key position second. */
  predicate Precedes(rem: seq<real>, up: bool, j: nat, k: nat)
    requires j < |rem| && k < |rem|
  {
    if up then rem[j] > rem[k] || (rem[j] == rem[k] && j > k)
    else rem[j] < rem[k] || (rem[j] == rem[k] && j < k)
  }

  // ----- what the split promises -----

  /** Every part is strictly within one quantum of its exact share. */
  ghost predicate WithinQuota(exact: seq<real>, parts: seq<int>)
    requires |exact| == |parts|
  {
    forall k :: 0 <= k < |parts| ==> -1.0 < exact[k] - parts[k] as real < 1.0
  }

  /** No whole-quantum vector with the same sum is closer in squared distance. */
  ghost predicate Optimal(exact: seq<real>, parts: seq<int>)
    requires |exact| == |parts|
  {
    forall other: seq<int> :: |other| == |parts| && SumInt(other) == SumInt(parts) ==>
                                SquaredDeviation(exact, parts) <= SquaredDeviation(exact, other)
  }

  /** The rounded shares, moved by one quantum in one direction on an initial segment of the order. */
  ghost predicate Moved(exact: seq<real>, parts: seq<int>, up: bool)
    requires |exact| == |parts|
  {
    var base := Rounded(exact);
    && (forall k :: 0 <= k < |parts| ==>
                      parts[k] == base[k] || parts[k] == base[k] + (if up then 1 else -1))
    && (forall j, k :: 0 <= j < |parts| && 0 <= k < |parts| && parts[j] != base[j] && parts[k] == base[k] ==>
                         Precedes(Leftover(exact, base), up, j, k))
  }

  ghost predicate RankedAdjustment(exact: seq<real>, parts: seq<int>)
    requires |exact| == |parts|
  {
    Moved(exact, parts, SumInt(parts) > SumInt(Rounded(exact)))
  }

  /** After the loop, no two leftovers are more than one quantum apart. */
  ghost predicate Balanced(exact: seq<real>, parts: seq<int>)
    requires |exact| == |parts|
  {
    forall j, k :: 0 <= j < |parts| && 0 <= k < |parts| ==>
                     (exact[j] - parts[j] as real) - (exact[k] - parts[k] as real) <= 1.0
  }

  // ----- lemmas about the exact shares -----

  lemma ExactSumsToTotal(total: real, weights: seq<real>)
    requires Sum(weights) != 0.0
    ensures Sum(Exact(total, weights)) == total
  {
    var w := Sum(weights);
    var c := total / w;
    forall k | 0 <= k < |weights|
      ensures Exact(total, weights)[k] == c * weights[k]
    {
      ScaledShare(total, weights[k], w);
    }
    SumScale(weights, Exact(total, weights), c);
  }

  lemma ScaledShare(total: real, weight: real, w: real)
    requires w != 0.0
    ensures Share(total, weight, w) == (total / w) * weight
  {
    assert (total / w) * weight * w == total * weight;
  }

  /** What the rounded shares leave over is the sum of the remainders. */
  lemma ResidueIsSumOfRemainders(total: real, weights: seq<real>)
    requires Sum(weights) != 0.0
    ensures var exact := Exact(total, weights);
            Sum(Leftover(exact, Rounded(exact))) == total - SumInt(Rounded(exact)) as real
  {
    var exact := Exact(total, weights);
    ExactSumsToTotal(total, weights);
    SumDifference(exact, AsReals(Rounded(exact)), Leftover(exact, Rounded(exact)));
    SumAsReals(Rounded(exact));
  }

  // ----- the counting argument -----

  /** Half a quantum, signed, at each chosen key. */
  ghost function Halves(n: nat, chosen: set<nat>, up: bool): (s: seq<real>)
    ensures |s| == n
  {
    seq(n, k requires 0 <= k < n => if k !in chosen then 0.0 else if up then 0.5 else -0.5)
  }

  lemma HalvesFront(n: nat, chosen: set<nat>, up: bool)
    requires n > 0
    ensures Halves(n, chosen, up)[..n - 1] == Halves(n - 1, chosen - {n - 1}, up)
  {
  }

  lemma {:induction false} HalvesSum(n: nat, chosen: set<nat>, up: bool)
    requires forall k :: k in chosen ==> k < n
    ensures Sum(Halves(n, chosen, up)) == if up then |chosen| as real / 2.0 else -(|chosen| as real / 2.0)
  {
    if n == 0 {
      assert chosen == {};
    } else {
      var rest := chosen - {n - 1};
      HalvesSum(n - 1, rest, up);
      HalvesFront(n, chosen, up);
      if n - 1 in chosen {
        assert |rest| == |chosen| - 1;
      } else {
        assert rest == chosen;
      }
    }
  }

  /** A positive residue only ever reaches keys whose remainder is positive. */
  lemma HandedOutUpwards(rem: seq<real>, ahead: set<nat>, j: nat, steps: int)
    requires forall k :: 0 <= k < |rem| ==> -0.5 <= rem[k] <= 0.5
    requires steps > 0 && steps as real - 0.5 <= Sum(rem)
    requires j < |rem| && |ahead| < steps && forall k :: k in ahead ==> k < |rem|
    requires forall k: nat :: k < |rem| && k !in ahead ==> rem[k] <= rem[j]
    ensures rem[j] > 0.0
  {
    if rem[j] <= 0.0 {
      SumMonotone(rem, Halves(|rem|, ahead, true));
      HalvesSum(|rem|, ahead, true);
    }
  }

  /** A negative residue is only ever taken from keys that were rounded up. */
  lemma HandedOutDownwards(rem: seq<real>, ahead: set<nat>, j: nat, steps: int)
    requires forall k :: 0 <= k < |rem| ==> -0.5 <= rem[k] <= 0.5
    requires steps < 0 && Sum(rem) <= steps as real + 0.5
    requires j < |rem| && |ahead| < -steps && forall k :: k in ahead ==> k < |rem|
    requires forall k: nat :: k < |rem| && k !in ahead ==> rem[j] <= rem[k]
    ensures rem[j] < 0.0
  {
    if rem[j] >= 0.0 {
      SumMonotone(Halves(|rem|, ahead, false), rem);
      HalvesSum(|rem|, ahead, false);
    }
  }

  // ----- the exchange argument -----

  lemma IntegerMove(d: int, e: real)
    requires -0.5 <= e <= 0.5
    ensures d as real * d as real - 2.0 * d as real * e >= 0.0
  {
    var r := d as real;
    if d >= 1 {
      assert r >= 1.0;
      assert r * (r - 2.0 * e) >= 0.0;
    } else if d <= -1 {
      assert r <= -1.0;
      assert (-r) * (2.0 * e - r) >= 0.0;
    }
  }

  /** Moving a part from x to y costs at least the linear term of the band it sits in. */
  lemma MoveCost(x: int, y: int, e: real, slope: real)
    requires -0.5 <= (e - x as real) - slope / 2.0 <= 0.5
    ensures Square(x as real - e) <= Square(y as real - e) + Tilted(slope, y - x)
  {
    var d, f := y - x, (e - x as real) - slope / 2.0;
    IntegerMove(d, f);
    var r := d as real;
    var g := x as real - e;
    assert y as real - e == g + r;
    assert (g + r) * (g + r) == g * g + 2.0 * g * r + r * r;
    assert 2.0 * g == -2.0 * f - slope;
    assert (2.0 * g) * r == -2.0 * f * r - slope * r;
  }

  function Tilted(slope: real, d: int): (t: real) {
    slope * d as real
  }

  ghost function Tilt(slope: real, parts: seq<int>, other: seq<int>): (t: real)
    requires |parts| == |other|
  {
    if parts == [] then 0.0
    else
      var n := |parts| - 1;
      Tilt(slope, parts[..n], other[..n]) + Tilted(slope, other[n] - parts[n])
  }

  lemma {:induction false} TiltOfEqualSums(slope: real, parts: seq<int>, other: seq<int>)
    requires |parts| == |other|
    ensures Tilt(slope, parts, other) == Tilted(slope, SumInt(other) - SumInt(parts))
  {
    if parts != [] {
      var n := |parts| - 1;
      TiltOfEqualSums(slope, parts[..n], other[..n]);
      TiltAdds(slope, SumInt(other[..n]) - SumInt(parts[..n]), other[n] - parts[n]);
    }
  }

  lemma TiltAdds(slope: real, a: int, b: int)
    ensures Tilted(slope, a + b) == Tilted(slope, a) + Tilted(slope, b)
  {
  }

  /** Leftovers inside one unit-length band make the vector a least-squares optimum. */
  lemma {:induction false} BandIsOptimal(exact: seq<real>, parts: seq<int>, other: seq<int>, slope: real)
    requires |exact| == |parts| == |other|
    requires forall k :: 0 <= k < |parts| ==> -0.5 <= (exact[k] - parts[k] as real) - slope / 2.0 <= 0.5
    ensures SquaredDeviation(exact, parts) <= SquaredDeviation(exact, other) + Tilt(slope, parts, other)
  {
    if parts != [] {
      var n := |parts| - 1;
      BandIsOptimal(exact[..n], parts[..n], other[..n], slope);
      MoveCost(parts[n], other[n], exact[n], slope);
      DeviationSplit(exact, parts);
      DeviationSplit(exact, other);
    }
  }

  lemma DeviationSplit(exact: seq<real>, parts: seq<int>)
    requires |exact| == |parts| > 0
    ensures var n := |parts| - 1;
            SquaredDeviation(exact, parts) ==
            SquaredDeviation(exact[..n], parts[..n]) + Square(parts[n] as real - exact[n])
  {
    var n := |parts| - 1;
    var full := seq(|exact|, k requires 0 <= k < |exact| => Square(parts[k] as real - exact[k]));
    var short := seq(n, k requires 0 <= k < n => Square(parts[..n][k] as real - exact[..n][k]));
    assert full[..n] == short;
  }

  lemma BalancedIsOptimal(exact: seq<real>, parts: seq<int>)
    requires |exact| == |parts| && Balanced(exact, parts)
    ensures Optimal(exact, parts)
  {
    if parts != [] {
      var low := LeastLeftover(exact, parts);
      forall other: seq<int> | |other| == |parts| && SumInt(other) == SumInt(parts)
        ensures SquaredDeviation(exact, parts) <= SquaredDeviation(exact, other)
      {
        BandIsOptimal(exact, parts, other, 2.0 * low + 1.0);
        TiltOfEqualSums(2.0 * low + 1.0, parts, other);
      }
    }
  }

  lemma LeastLeftover(exact: seq<real>, parts: seq<int>) returns (low: real)
    requires |exact| == |parts| > 0
    ensures exists j :: 0 <= j < |parts| && low == exact[j] - parts[j] as real
    ensures forall k :: 0 <= k < |parts| ==> low <= exact[k] - parts[k] as real
  {
    low := exact[0] - parts[0] as real;
    for i := 1 to |parts|
      invariant exists j :: 0 <= j < |parts| && low == exact[j] - parts[j] as real
      invariant forall k :: 0 <= k < i ==> low <= exact[k] - parts[k] as real
    {
      if exact[i] - parts[i] as real < low {
        low := exact[i] - parts[i] as real;
      }
    }
  }

  /** The split is determined by the exact shares and its sum: the tie-break leaves no freedom. */
  lemma RankedAdjustmentUnique(exact: seq<real>, a: seq<int>, b: seq<int>)
    requires |exact| == |a| == |b| && SumInt(a) == SumInt(b)
    requires RankedAdjustment(exact, a) && RankedAdjustment(exact, b)
    ensures a == b
  {
    forall j, k | 0 <= j < |a| && 0 <= k < |a|
      ensures !(a[j] < b[j] && a[k] > b[k])
    {
      NoCrossing(exact, a, b, SumInt(a) > SumInt(Rounded(exact)), j, k);
    }
    SumAsReals(a);
    SumAsReals(b);
    if forall k :: 0 <= k < |a| ==> a[k] <= b[k] {
      SumTight(AsReals(a), AsReals(b));
      SameReals(a, b);
    } else {
      SumTight(AsReals(b), AsReals(a));
      SameReals(a, b);
    }
  }

  lemma SameReals(a: seq<int>, b: seq<int>)
    requires |a| == |b| && AsReals(a) == AsReals(b)
    ensures a == b
  {
    forall k | 0 <= k < |a|
      ensures a[k] == b[k]
    {
      assert AsReals(a)[k] == AsReals(b)[k];
    }
  }

  /** Two adjustments along the same order are nested: one cannot lead at j and trail at k. */
  lemma NoCrossing(exact: seq<real>, a: seq<int>, b: seq<int>, up: bool, j: nat, k: nat)
    requires |exact| == |a| == |b| && j < |a| && k < |a|
    requires Moved(exact, a, up) && Moved(exact, b, up)
    ensures !(a[j] < b[j] && a[k] > b[k])
  {
    var rem := Leftover(exact, Rounded(exact));
    assert !(Precedes(rem, up, j, k) && Precedes(rem, up, k, j));
  }

  // ----- the residue order -----

  /** The first m keys, each once, in the order the residue is handed out. */
  ghost predicate IsOrderOf(rem: seq<real>, up: bool, order: seq<nat>, m: nat) {
    && |order| == m <= |rem|
    && (forall i :: 0 <= i < |order| ==> order[i] < m)
    && (forall k: nat :: k < m ==> k in order)
    && (forall i, j :: 0 <= i < j < |order| ==> Precedes(rem, up, order[i], order[j]))
  }

  ghost predicate IsResidueOrder(rem: seq<real>, up: bool, order: seq<nat>) {
    IsOrderOf(rem, up, order, |rem|)
  }

  method SortKeys(rem: seq<real>, up: bool) returns (order: seq<nat>)
    ensures IsResidueOrder(rem, up, order)
  {
    order := [];
    for m := 0 to |rem|
      invariant IsOrderOf(rem, up, order, m)
    {
      var p := 0;
      while p < |order| && Precedes(rem, up, order[p], m)
        invariant 0 <= p <= |order|
        invariant forall i :: 0 <= i < p ==> Precedes(rem, up, order[i], m)
      {
        p := p + 1;
      }
      InsertKeepsOrder(rem, up, order, p, m);
      order := Inserted(order, p, m);
    }
  }

  function Inserted(order: seq<nat>, p: nat, m: nat): (r: seq<nat>)
    requires p <= |order|
    ensures |r| == |order| + 1
    ensures forall i :: 0 <= i < |r| ==> r[i] == if i < p then order[i] else if i == p then m else order[i - 1]
  {
    order[..p] + [m] + order[p..]
  }

  lemma InsertKeepsOrder(rem: seq<real>, up: bool, order: seq<nat>, p: nat, m: nat)
    requires IsOrderOf(rem, up, order, m) && m < |rem| && p <= m
    requires forall i :: 0 <= i < p ==> Precedes(rem, up, order[i], m)
    requires p < m ==> !Precedes(rem, up, order[p], m)
    ensures IsOrderOf(rem, up, Inserted(order, p, m), m + 1)
  {
    var r := Inserted(order, p, m);
    forall k: nat | k < m + 1 ensures k in r {
      InsertCovers(order, p, m, k);
    }
    forall i | p <= i < m ensures Precedes(rem, up, m, order[i]) {
      assert p < i ==> Precedes(rem, up, order[p], order[i]);
    }
    forall i, j | 0 <= i < j < |r| ensures Precedes(rem, up, r[i], r[j]) {
    }
  }

  lemma InsertCovers(order: seq<nat>, p: nat, m: nat, k: nat)
    requires p <= |order| && (k in order || k == m)
    ensures k in Inserted(order, p, m)
  {
    var r := Inserted(order, p, m);
    if k == m {
      assert r[p] == k;
    } else {
      var i := Position(order, k);
      assert r[if i < p then i else i + 1] == k;
    }
  }

  ghost function Position(order: seq<nat>, k: nat): (p: nat)
    requires k in order
    ensures p < |order| && order[p] == k
  {
    var p: nat :| p < |order| && order[p] == k;
    p
  }

  ghost function FirstKeys(order: seq<nat>, p: nat): (ahead: set<nat>)
    requires p <= |order|
    ensures |ahead| <= p
    ensures forall k :: k in ahead <==> exists i :: 0 <= i < p && order[i] == k
  {
    if p == 0 then {} else FirstKeys(order, p - 1) + {order[p - 1]}
  }

  /** Each of the n keys at one place. */
  ghost predicate KeyOrder(order: seq<nat>, n: nat) {
    && |order| == n
    && (forall i :: 0 <= i < |order| ==> order[i] < n)
    && (forall i, j :: 0 <= i < j < |order| ==> order[i] != order[j])
  }

  /** The state the residue loop reaches after handing out i quanta. */
  ghost predicate Handed(base: seq<int>, order: seq<nat>, parts: seq<int>, i: nat, direction: int)
    requires KeyOrder(order, |base|) && |base| == |parts|
  {
    && (forall q :: 0 <= q < i && q < |order| ==> parts[order[q]] == base[order[q]] + direction)
    && (forall q :: i <= q < |order| ==> parts[order[q]] == base[order[q]])
  }

  lemma NotAhead(rem: seq<real>, up: bool, order: seq<nat>, p: nat, q: nat)
    requires IsResidueOrder(rem, up, order) && p < |order| && q < |rem|
    requires forall i :: 0 <= i < p ==> order[i] != q
    ensures if up then rem[q] <= rem[order[p]] else rem[order[p]] <= rem[q]
  {
    assert q in order;
    var i := Position(order, q);
    assert p < i ==> Precedes(rem, up, order[p], order[i]);
  }

  /** The first |steps| keys of the order have a remainder on the side the residue came from. */
  lemma ServedSide(rem: seq<real>, order: seq<nat>, steps: int, p: nat)
    requires steps != 0 && IsResidueOrder(rem, steps > 0, order)
    requires forall k :: 0 <= k < |rem| ==> -0.5 <= rem[k] <= 0.5
    requires -0.5 <= Sum(rem) - steps as real <= 0.5
    requires p < |order| && p < if steps > 0 then steps else -steps
    ensures if steps > 0 then rem[order[p]] > 0.0 else rem[order[p]] < 0.0
  {
    var ahead := FirstKeys(order, p);
    forall q: nat | q < |rem| && q !in ahead
      ensures if steps > 0 then rem[q] <= rem[order[p]] else rem[order[p]] <= rem[q]
    {
      NotAhead(rem, steps > 0, order, p, q);
    }
    if steps > 0 {
      HandedOutUpwards(rem, ahead, order[p], steps);
    } else {
      HandedOutDownwards(rem, ahead, order[p], steps);
    }
  }

  ghost predicate OnOneSide(exact: seq<real>, parts: seq<int>, up: bool)
    requires |exact| == |parts|
  {
    forall k :: 0 <= k < |parts| && parts[k] != Rounded(exact)[k] ==>
                  if up then exact[k] > Rounded(exact)[k] as real else exact[k] < Rounded(exact)[k] as real
  }

  ghost function Magnitude(steps: int): (n: nat) {
    if steps > 0 then steps else -steps
  }

  ghost function Direction(steps: int): (d: int) {
    if steps > 0 then 1 else -1
  }

  /** A key moved exactly if its place in the order was reached, and then it was on the right side. */
  lemma KeyMoves(base: seq<int>, rem: seq<real>, order: seq<nat>, parts: seq<int>, steps: int, k: nat)
    requires |base| == |rem| == |parts| && steps != 0 && k < |parts|
    requires IsResidueOrder(rem, steps > 0, order)
    requires forall k :: 0 <= k < |rem| ==> -0.5 <= rem[k] <= 0.5
    requires -0.5 <= Sum(rem) - steps as real <= 0.5
    requires Handed(base, order, parts, Magnitude(steps), Direction(steps))
    ensures k in order && (parts[k] != base[k] <==> Position(order, k) < Magnitude(steps))
    ensures parts[k] == base[k] || parts[k] == base[k] + Direction(steps)
    ensures parts[k] != base[k] ==> if steps > 0 then rem[k] > 0.0 else rem[k] < 0.0
  {
    assert k in order;
    var p := Position(order, k);
    if p < Magnitude(steps) {
      ServedSide(rem, order, steps, p);
    }
  }

  /** What the loop's last state says, key by key instead of position by position. */
  lemma LoopMoves(exact: seq<real>, order: seq<nat>, parts: seq<int>, steps: int)
    requires |exact| == |parts| && steps != 0
    requires IsResidueOrder(Leftover(exact, Rounded(exact)), steps > 0, order)
    requires -0.5 <= Sum(Leftover(exact, Rounded(exact))) - steps as real <= 0.5
    requires Handed(Rounded(exact), order, parts, Magnitude(steps), Direction(steps))
    ensures Moved(exact, parts, steps > 0) && OnOneSide(exact, parts, steps > 0)
  {
    var base := Rounded(exact);
    var rem := Leftover(exact, base);
    forall k: nat | k < |parts|
      ensures k in order && (parts[k] != base[k] <==> Position(order, k) < Magnitude(steps))
      ensures parts[k] == base[k] || parts[k] == base[k] + Direction(steps)
      ensures parts[k] != base[k] ==> if steps > 0 then rem[k] > 0.0 else rem[k] < 0.0
    {
      KeyMoves(base, rem, order, parts, steps, k);
    }
    forall j: nat, k: nat | j < |parts| && k < |parts| && parts[j] != base[j] && parts[k] == base[k]
      ensures Precedes(rem, steps > 0, j, k)
    {
      ReachedPrecedes(rem, steps > 0, order, j, k);
    }
  }

  lemma ReachedPrecedes(rem: seq<real>, up: bool, order: seq<nat>, j: nat, k: nat)
    requires IsResidueOrder(rem, up, order) && j in order && k in order
    requires Position(order, j) < Position(order, k)
    ensures j < |rem| && k < |rem| && Precedes(rem, up, j, k)
  {
  }

  /** One-sided moves along the order keep every part within quota and the leftovers in one band. */
  lemma MovesStayInBand(exact: seq<real>, parts: seq<int>, up: bool)
    requires |exact| == |parts|
    requires Moved(exact, parts, up) && OnOneSide(exact, parts, up)
    ensures WithinQuota(exact, parts) && Balanced(exact, parts)
  {
    var base := Rounded(exact);
    assert forall k :: 0 <= k < |exact| ==> -0.5 <= exact[k] - base[k] as real <= 0.5;
    forall j, k | 0 <= j < |parts| && 0 <= k < |parts|
      ensures (exact[j] - parts[j] as real) - (exact[k] - parts[k] as real) <= 1.0
    {
      if up && parts[j] == base[j] && parts[k] != base[k] {
        assert Precedes(Leftover(exact, base), up, k, j);
      } else if !up && parts[j] != base[j] && parts[k] == base[k] {
        assert Precedes(Leftover(exact, base), up, j, k);
      }
    }
  }

  /** The residue never exceeds the number of keys, so the loop visits no key twice. */
  lemma ResidueFitsInOneRound(rem: seq<real>, steps: int)
    requires rem != [] && forall k :: 0 <= k < |rem| ==> -0.5 <= rem[k] <= 0.5
    requires -0.5 <= Sum(rem) - steps as real <= 0.5
    ensures -|rem| <= steps <= |rem|
  {
    SumBound(rem, 0.5);
  }

  lemma ShareNonNegative(total: real, weight: real, w: real)
    requires total >= 0.0 && weight >= 0.0 && w > 0.0
    ensures Share(total, weight, w) >= 0.0
  {
    assert total * weight >= 0.0;
  }

  lemma NonNegativeParts(total: real, weights: seq<real>, parts: seq<int>)
    requires Sum(weights) != 0.0 && |parts| == |weights|
    requires total >= 0.0 && forall k :: 0 <= k < |weights| ==> weights[k] >= 0.0
    requires WithinQuota(Exact(total, weights), parts)
    ensures forall k :: 0 <= k < |parts| ==> parts[k] >= 0
  {
    SumNonNegative(weights);
    forall k | 0 <= k < |parts|
      ensures parts[k] >= 0
    {
      ShareNonNegative(total, weights[k], Sum(weights));
      assert Exact(total, weights)[k] == Share(total, weights[k], Sum(weights));
    }
  }

  lemma SmallModulo(i: nat, n: nat)
    requires i < n
    ensures i % n == i
  {
  }

  lemma HandOne(base: seq<int>, order: seq<nat>, parts: seq<int>, i: nat, direction: int)
    requires KeyOrder(order, |base|) && |base| == |parts| && i < |order|
    requires Handed(base, order, parts, i, direction)
    ensures Handed(base, order, parts[order[i] := parts[order[i]] + direction], i + 1, direction)
  {
  }

  lemma HandOutStep(base: seq<int>, order: seq<nat>, parts: seq<int>, i: nat, direction: int)
    requires KeyOrder(order, |base|) && |base| == |parts| && i < |order|
    requires Handed(base, order, parts, i, direction)
    ensures
      var key := order[i % |order|];
      var next := parts[key := parts[key] + direction];
      Handed(base, order, next, i + 1, direction) && SumInt(next) == SumInt(parts) + direction
  {
    SmallModulo(i, |order|);
    SumIntUpdate(parts, order[i], parts[order[i]] + direction);
    HandOne(base, order, parts, i, direction);
  }

  /** The residue loop: one quantum at a time to the keys in order. */
  method HandOut(base: seq<int>, order: seq<nat>, steps: int) returns (parts: seq<int>)
    requires KeyOrder(order, |base|) && -|base| <= steps <= |base|
    ensures |parts| == |base| && SumInt(parts) == SumInt(base) + steps
    ensures Handed(base, order, parts, Magnitude(steps), Direction(steps))
  {
    var direction := if steps > 0 then 1 else -1;
    parts := base;
    for i := 0 to if steps > 0 then steps else -steps
      invariant |parts| == |base|
      invariant Handed(base, order, parts, i, direction)
      invariant SumInt(parts) == SumInt(base) + (if steps > 0 then i else -i)
    {
      HandOutStep(base, order, parts, i, direction);
      var key := order[i % |order|];
      parts := parts[key := parts[key] + direction];
    }
  }

  /** The sum a split reaches: the rounded shares plus the rounded residue. */
  ghost function Target(total: real, exact: seq<real>): (t: int) {
    var rounded := SumInt(Rounded(exact));
    rounded + HalfEven(total - rounded as real)
  }

  /** The sum is the target, misses the total by at most half a quantum, and meets a whole one. */
  ghost predicate MeetsTotal(total: real, exact: seq<real>, sum: int) {
    && sum == Target(total, exact)
    && -0.5 <= total - sum as real <= 0.5
    && (sum as real == total <==> IsWhole(total))
  }

  lemma TargetMeetsTotal(total: real, exact: seq<real>)
    ensures MeetsTotal(total, exact, Target(total, exact))
  {
    ExactIffWhole(total, SumInt(Rounded(exact)), Target(total, exact));
  }

  /** Everything Allocate promises about the parts of a split with these exact shares. */
  ghost predicate FairSplit(total: real, exact: seq<real>, parts: seq<int>)
  {
    && |parts| == |exact|
    && MeetsTotal(total, exact, SumInt(parts))
    && WithinQuota(exact, parts)
    && Optimal(exact, parts)
    && RankedAdjustment(exact, parts)
  }

  lemma SplitIsFair(total: real, exact: seq<real>, parts: seq<int>)
    requires |parts| == |exact|
    requires WithinQuota(exact, parts) && Balanced(exact, parts) && RankedAdjustment(exact, parts)
    requires SumInt(parts) == Target(total, exact)
    ensures FairSplit(total, exact, parts)
  {
    BalancedIsOptimal(exact, parts);
    TargetMeetsTotal(total, exact);
  }

  lemma ExactIffWhole(total: real, rounded: int, sum: int)
    requires sum == rounded + HalfEven(total - rounded as real)
    ensures -0.5 <= total - sum as real <= 0.5
    ensures sum as real == total <==> IsWhole(total)
  {
    if IsWhole(total) {
      HalfEvenWhole(total.Floor - rounded);
    }
  }

  // ----- the split in terms of the weights -----

  /**
   * Each part is proportional to its weight, to within less than one quantum: for the weight sum
   * W, part * W differs from total * weight by less than |W|.
   */
  ghost predicate Proportional(total: real, weights: seq<real>, parts: seq<real>) {
    && |parts| == |weights|
    && var w := Sum(weights);
       forall k :: 0 <= k < |parts| ==> Near(total, weights[k], w, parts[k])
  }

  /** |total * weight - part * w| < |w| */
  ghost predicate Near(total: real, weight: real, w: real, part: real) {
    Abs(total * weight - part * w) < Abs(w)
  }

  /** Squared distance of a split from the exact proportional amounts. */
  ghost function DistanceFrom(total: real, weights: seq<real>, parts: seq<int>): (d: real)
    requires |parts| == |weights| && Sum(weights) != 0.0
  {
    Sum(seq(|weights|, k requires 0 <= k < |weights| => Miss(parts[k], total, weights[k], Sum(weights))))
  }

  /** The squared distance of one part from total * weight / w. */
  function Miss(part: int, total: real, weight: real, w: real): (d: real)
    requires w != 0.0
  {
    Square(part as real - total * weight / w)
  }

  lemma MissIsDeviation(part: int, total: real, weight: real, w: real)
    requires w != 0.0
    ensures Miss(part, total, weight, w) == Square(part as real - Share(total, weight, w))
  {
  }

  /** No whole-quantum split of the same sum is closer to the proportional amounts. */
  ghost predicate ClosestSplit(total: real, weights: seq<real>, parts: seq<int>)
    requires |parts| == |weights| && Sum(weights) != 0.0
  {
    forall other: seq<int> :: |other| == |parts| && SumInt(other) == SumInt(parts) ==>
                                DistanceFrom(total, weights, parts) <= DistanceFrom(total, weights, other)
  }

  /** Of two equal weights the later one never gets less, and at most one quantum more. */
  ghost predicate LaterFirst(weights: seq<real>, parts: seq<int>)
    requires |parts| == |weights|
  {
    forall j, k :: 0 <= j < k < |weights| && weights[j] == weights[k] ==> parts[j] <= parts[k] <= parts[j] + 1
  }

  lemma TiesFavourLater(total: real, weights: seq<real>, parts: seq<int>)
    requires Sum(weights) != 0.0 && |parts| == |weights| && RankedAdjustment(Exact(total, weights), parts)
    ensures LaterFirst(weights, parts)
  {
    var exact := Exact(total, weights);
    var base, up := Rounded(exact), SumInt(parts) > SumInt(Rounded(exact));
    var rem := Leftover(exact, base);
    forall j, k | 0 <= j < k < |weights| && weights[j] == weights[k]
      ensures parts[j] <= parts[k] <= parts[j] + 1
    {
      assert exact[j] == exact[k] && base[j] == base[k] && rem[j] == rem[k];
      assert !Precedes(rem, true, j, k) && !Precedes(rem, false, k, j);
    }
  }

  /** A split of a total over weights, said of the weights alone. */
  ghost predicate SplitByWeights(total: real, weights: seq<real>, parts: seq<int>) {
    && |parts| == |weights| && Sum(weights) != 0.0
    && Proportional(total, weights, AsReals(parts)) && ClosestSplit(total, weights, parts)
    && LaterFirst(weights, parts)
  }

  lemma QuotaIsNear(total: real, weight: real, w: real, part: real)
    requires w != 0.0 && -1.0 < Share(total, weight, w) - part < 1.0
    ensures Near(total, weight, w, part)
  {
    var share := Share(total, weight, w);
    ShareTimes(total, weight, w);
    Distribute(w, share, part);
    AbsScaled(total * weight - part * w, w, share - part);
  }

  lemma ShareTimes(total: real, weight: real, w: real)
    requires w != 0.0
    ensures w * Share(total, weight, w) == total * weight
  {
  }

  lemma AbsScaled(x: real, w: real, gap: real)
    requires w != 0.0 && -1.0 < gap < 1.0 && x == w * gap
    ensures Abs(x) < Abs(w)
  {
    if w > 0.0 {
      ScaledBelow(gap, w);
    } else {
      ScaledBelow(gap, -w);
      assert (-w) * gap == -(w * gap);
    }
  }

  lemma ScaledBelow(gap: real, d: real)
    requires d > 0.0 && -1.0 < gap < 1.0
    ensures -d < d * gap < d
  {
    ProductPositive(d, 1.0 - gap);
    ProductPositive(d, gap + 1.0);
    Distribute(d, 1.0, gap);
    Distribute(d, gap, 1.0);
  }

  lemma DistanceIsDeviation(total: real, weights: seq<real>, parts: seq<int>)
    requires |parts| == |weights| && Sum(weights) != 0.0
    ensures DistanceFrom(total, weights, parts) == SquaredDeviation(Exact(total, weights), parts)
  {
    var exact, w := Exact(total, weights), Sum(weights);
    var a := seq(|weights|, k requires 0 <= k < |weights| => Miss(parts[k], total, weights[k], Sum(weights)));
    var b := seq(|exact|, k requires 0 <= k < |exact| => Square(parts[k] as real - exact[k]));
    forall k | 0 <= k < |a| ensures a[k] == b[k] {
      MissIsDeviation(parts[k], total, weights[k], w);
    }
    assert a == b;
  }

  /** A fair split of the exact shares is proportional to the weights and closest to them. */
  lemma FairIsProportional(total: real, weights: seq<real>, parts: seq<int>)
    requires Sum(weights) != 0.0 && FairSplit(total, Exact(total, weights), parts)
    ensures SplitByWeights(total, weights, parts)
  {
    QuotaIsProportional(total, weights, parts);
    OptimalIsClosest(total, weights, parts);
    TiesFavourLater(total, weights, parts);
  }

  lemma QuotaIsProportional(total: real, weights: seq<real>, parts: seq<int>)
    requires Sum(weights) != 0.0 && |parts| == |weights| && WithinQuota(Exact(total, weights), parts)
    ensures Proportional(total, weights, AsReals(parts))
  {
    forall k | 0 <= k < |parts| ensures Near(total, weights[k], Sum(weights), AsReals(parts)[k]) {
      QuotaIsNear(total, weights[k], Sum(weights), parts[k] as real);
    }
  }

  lemma OptimalIsClosest(total: real, weights: seq<real>, parts: seq<int>)
    requires Sum(weights) != 0.0 && |parts| == |weights| && Optimal(Exact(total, weights), parts)
    ensures ClosestSplit(total, weights, parts)
  {
    forall other: seq<int> | |other| == |parts| && SumInt(other) == SumInt(parts)
      ensures DistanceFrom(total, weights, parts) <= DistanceFrom(total, weights, other)
    {
      DistanceIsDeviation(total, weights, parts);
      DistanceIsDeviation(total, weights, other);
    }
  }

  /**
   * Split total over the weights. With a non-zero weight sum the parts miss the total by at
   * most half a quantum, meet it exactly when the total is a whole number of quanta, are
   * proportional to the weights within one quantum, and no split of their sum is closer.
   */
  method Allocate(total: real, weights: seq<real>) returns (r: Result<seq<int>>)
    ensures weights == [] ==> r == Ok([])
    ensures weights != [] && Sum(weights) == 0.0 ==>
              r == if total == 0.0 then Ok(seq(|weights|, k => 0)) else Err(ZeroWeight)
    ensures weights != [] && Sum(weights) != 0.0 ==>
              r.Ok? && FairSplit(total, Exact(total, weights), r.value) && SplitByWeights(total, weights, r.value)
  {
    if weights == [] {
      return Ok([]);
    }
    if Sum(weights) == 0.0 {
      return if total == 0.0 then Ok(seq(|weights|, k => 0)) else Err(ZeroWeight);
    }
    var parts := AllocateExact(total, weights);
    FairIsProportional(total, weights, parts);
    return Ok(parts);
  }

  /** With no residue the rounded shares are the split. */
  lemma RoundedIsFair(total: real, exact: seq<real>)
    requires HalfEven(total - SumInt(Rounded(exact)) as real) == 0
    ensures FairSplit(total, exact, Rounded(exact))
  {
    MovesStayInBand(exact, Rounded(exact), false);
    SplitIsFair(total, exact, Rounded(exact));
  }

  /** What the loop hands out is the split. */
  lemma HandedIsFair(total: real, exact: seq<real>, order: seq<nat>, parts: seq<int>, steps: int)
    requires steps == HalfEven(total - SumInt(Rounded(exact)) as real) != 0 && |parts| == |exact|
    requires IsResidueOrder(Leftover(exact, Rounded(exact)), steps > 0, order)
    requires -0.5 <= Sum(Leftover(exact, Rounded(exact))) - steps as real <= 0.5
    requires Handed(Rounded(exact), order, parts, Magnitude(steps), Direction(steps))
    requires SumInt(parts) == SumInt(Rounded(exact)) + steps
    ensures FairSplit(total, exact, parts)
  {
    LoopMoves(exact, order, parts, steps);
    MovesStayInBand(exact, parts, steps > 0);
    SplitIsFair(total, exact, parts);
  }

  /** Round the exact shares and hand out the residue. */
  method AllocateExact(total: real, weights: seq<real>) returns (parts: seq<int>)
    requires weights != [] && Sum(weights) != 0.0
    ensures FairSplit(total, Exact(total, weights), parts)
  {
    var exact := Exact(total, weights);
    var base := Rounded(exact);
    var rem := Leftover(exact, base);
    var steps := HalfEven(total - SumInt(base) as real);
    ResidueIsSumOfRemainders(total, weights);
    ResidueFitsInOneRound(rem, steps);
    if steps == 0 {
      RoundedIsFair(total, exact);
      return base;
    }
    var order := SortKeys(rem, steps > 0);
    parts := HandOut(base, order, steps);
    HandedIsFair(total, exact, order, parts, steps);
  }
}
