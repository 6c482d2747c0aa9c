/** Choosing a candidate model: the confirmation winner and the Pareto frontier. */
module Search {
  import opened Confidence
  import opened Numeric
  import opened Wilson

  datatype Score = Score(model: string, passes: int, n: int, costUsd: real, latencyMs: real)

  /** passes / n, and 0 for an empty run. */
  function Parity(c: Score): (p: real) {
    if c.n != 0 then Rate(c.passes, c.n) else 0.0
  }

  lemma ParityMeans(c: Score)
    ensures c.n != 0 ==> Parity(c) * c.n as real == c.passes as real
    ensures c.n == 0 ==> Parity(c) == 0.0
  {
    if c.n != 0 {
      QuotientTimes(c.passes as real, c.n as real);
    }
  }

  // ----- the winner -----

  /** The texts agree below i, where a ends or holds the smaller code point. */
  ghost predicate FallsBelowAt(a: string, b: string, i: nat) {
    i <= |a| && i < |b| && a[..i] == b[..i] && (i == |a| || a[i] < b[i])
  }

  /** a is a proper prefix of b, or smaller at the first position where they differ. */
  ghost predicate ComesBefore(a: string, b: string) {
    exists i: nat :: FallsBelowAt(a, b, i)
  }

  /** Code-point order on strings, as Python compares them. */
  predicate TextBefore(a: string, b: string)
    decreases |a|
  {
    if b == "" then false
    else if a == "" then true
    else a[0] < b[0] || (a[0] == b[0] && TextBefore(a[1..], b[1..]))
  }

  /** The key (cost, model) of the minimum, strictly below. */
  predicate CheaperThan(a: Score, b: Score) {
    a.costUsd < b.costUsd || (a.costUsd == b.costUsd && TextBefore(a.model, b.model))
  }

  lemma {:induction false} TextBeforeIsOrder(a: string, b: string)
    ensures TextBefore(a, b) <==> ComesBefore(a, b)
    ensures a == b ==> !TextBefore(a, b)
    decreases |a|
  {
    if a == "" || b == "" || a[0] != b[0] {
      assert TextBefore(a, b) ==> FallsBelowAt(a, b, 0);
      forall i: nat | FallsBelowAt(a, b, i) ensures TextBefore(a, b) {
        assert i > 0 ==> a[..i][0] == b[..i][0];
      }
    } else {
      TextBeforeIsOrder(a[1..], b[1..]);
      forall i: nat ensures FallsBelowAt(a[1..], b[1..], i) <==> FallsBelowAt(a, b, i + 1) {
        ShiftedFall(a, b, i);
      }
      if ComesBefore(a[1..], b[1..]) {
        var i: nat :| FallsBelowAt(a[1..], b[1..], i);
        assert FallsBelowAt(a, b, i + 1);
      }
      if ComesBefore(a, b) {
        var i: nat :| FallsBelowAt(a, b, i);
        assert i > 0;
        assert FallsBelowAt(a[1..], b[1..], i - 1);
      }
    }
  }

  lemma ShiftedFall(a: string, b: string, i: nat)
    requires a != "" && b != "" && a[0] == b[0]
    ensures FallsBelowAt(a[1..], b[1..], i) <==> FallsBelowAt(a, b, i + 1)
  {
    if i + 1 <= |a| && i + 1 <= |b| {
      assert a[..i + 1] == [a[0]] + a[1..][..i] && b[..i + 1] == [b[0]] + b[1..][..i];
      assert a[..i + 1][1..] == a[1..][..i] && b[..i + 1][1..] == b[1..][..i];
    }
  }

  lemma {:induction false} TextBeforeTransitive(a: string, b: string, c: string)
    requires TextBefore(a, b)
    ensures !TextBefore(c, b) ==> TextBefore(a, c)
    ensures !TextBefore(b, a)
    decreases |a|
  {
    if a != "" && a[0] == b[0] {
      TextBeforeTransitive(a[1..], b[1..], if c == "" then "" else c[1..]);
    }
  }

  /** The two gates, in source order: the interval is formed only past the parity gate. */
  function Qualifies(incumbent: Score, reference: Interval, c: Score, raw: Formula):
    (r: Checked<bool>)
  {
    if Parity(c) < Parity(incumbent) then Value(false)
    else
      match WilsonCi(c.passes, c.n, raw)
      case Invalid => Invalid
      case Value(i) => Value(Separated(i, reference))
  }

  /** The cheapest qualifier; the earliest among equal keys, as Python's min. */
  function CheapestQualifier(incumbent: Score, reference: Interval, confirmed: seq<Score>,
                             raw: Formula): (r: Checked<Option<Score>>)
  {
    if confirmed == [] then Value(None)
    else
      var last := confirmed[|confirmed| - 1];
      match CheapestQualifier(incumbent, reference, confirmed[..|confirmed| - 1], raw)
      case Invalid => Invalid
      case Value(best) =>
        match Qualifies(incumbent, reference, last, raw)
        case Invalid => Invalid
        case Value(yes) =>
          if yes && (best.None? || CheaperThan(last, best.value)) then Value(Some(last))
          else Value(best)
  }

  function PickWinner(incumbent: Score, confirmed: seq<Score>, raw: Formula):
    (r: Checked<Option<Score>>)
  {
    match WilsonCi(incumbent.passes, incumbent.n, raw)
    case Invalid => Invalid
    case Value(reference) => CheapestQualifier(incumbent, reference, confirmed, raw)
  }

  /** A run whose counts form an interval. */
  predicate WellFormed(c: Score) {
    c.n >= 1 && 0 <= c.passes <= c.n
  }

  /** Its lower bound lies strictly above the incumbent's upper bound. */
  predicate Beats(c: Score, incumbent: Score, raw: Formula) {
    && WellFormed(c) && WellFormed(incumbent)
    && WilsonCi(c.passes, c.n, raw).value.low > WilsonCi(incumbent.passes, incumbent.n, raw).value.high
  }

  /** Both gates together mean exactly one-sided separation, so the parity gate decides the side. */
  lemma QualifiesIffBeats(incumbent: Score, c: Score, raw: Formula)
    requires SurroundsAll(raw) && WellFormed(incumbent)
    ensures
      var reference := WilsonCi(incumbent.passes, incumbent.n, raw).value;
      var q := Qualifies(incumbent, reference, c, raw);
      && (q.Invalid? <==> !WellFormed(c) && Parity(c) >= Parity(incumbent))
      && (q == Value(true) <==> Beats(c, incumbent, raw))
  {
    WilsonContains(incumbent.passes, incumbent.n, raw);
    WilsonContains(c.passes, c.n, raw);
  }

  /**
   * Position k holds the answer: a beater, no dearer than any other, of no later name than any
   * other at its cost, and the first of its cost and name.
   */
  ghost predicate WonBy(k: nat, incumbent: Score, confirmed: seq<Score>, raw: Formula) {
    && k < |confirmed| && Beats(confirmed[k], incumbent, raw)
    && forall j :: 0 <= j < |confirmed| && Beats(confirmed[j], incumbent, raw) ==>
                     var w, c := confirmed[k], confirmed[j];
                     && w.costUsd <= c.costUsd
                     && (w.costUsd == c.costUsd ==> !ComesBefore(c.model, w.model))
                     && (w.costUsd == c.costUsd && w.model == c.model ==> k <= j)
  }

  /** The scan's answer, characterised without the scan and its key. */
  ghost predicate IsCheapest(best: Option<Score>, incumbent: Score, confirmed: seq<Score>,
                             raw: Formula)
  {
    match best
    case None => forall c <- confirmed :: !Beats(c, incumbent, raw)
    case Some(w) => exists k: nat :: WonBy(k, incumbent, confirmed, raw) && confirmed[k] == w
  }

  /** The same by the key: below every earlier beater, and not above any later one. */
  ghost predicate LeastAt(k: nat, incumbent: Score, confirmed: seq<Score>, raw: Formula) {
    && k < |confirmed| && Beats(confirmed[k], incumbent, raw)
    && forall j :: 0 <= j < |confirmed| && Beats(confirmed[j], incumbent, raw) ==>
                     && !CheaperThan(confirmed[j], confirmed[k])
                     && (j < k ==> CheaperThan(confirmed[k], confirmed[j]))
  }

  ghost predicate IsLeast(best: Option<Score>, incumbent: Score, confirmed: seq<Score>, raw: Formula) {
    match best
    case None => forall c <- confirmed :: !Beats(c, incumbent, raw)
    case Some(w) => exists k: nat :: LeastAt(k, incumbent, confirmed, raw) && confirmed[k] == w
  }

  lemma LeastIsCheapest(best: Option<Score>, incumbent: Score, confirmed: seq<Score>, raw: Formula)
    requires IsLeast(best, incumbent, confirmed, raw)
    ensures IsCheapest(best, incumbent, confirmed, raw)
  {
    if best.Some? {
      var k: nat :| LeastAt(k, incumbent, confirmed, raw) && confirmed[k] == best.value;
      forall a, b ensures TextBefore(a, b) <==> ComesBefore(a, b)
        ensures !TextBefore(a, a)
      {
        TextBeforeIsOrder(a, b);
        TextBeforeIsOrder(a, a);
      }
      assert WonBy(k, incumbent, confirmed, raw);
    }
  }

  /** One more candidate: it takes over exactly when it beats the incumbent and undercuts the best so far. */
  lemma LeastOfMore(best: Option<Score>, incumbent: Score, front: seq<Score>, last: Score, raw: Formula)
    requires IsLeast(best, incumbent, front, raw)
    ensures
      var takesOver := Beats(last, incumbent, raw) && (best.None? || CheaperThan(last, best.value));
      IsLeast(if takesOver then Some(last) else best, incumbent, front + [last], raw)
  {
    var all := front + [last];
    CheaperThanIrreflexive(last);
    if best.None? {
      assert Beats(last, incumbent, raw) ==> LeastAt(|front|, incumbent, all, raw);
      assert forall c :: c in all <==> c in front || c == last;
    } else {
      var k: nat :| LeastAt(k, incumbent, front, raw) && front[k] == best.value;
      if Beats(last, incumbent, raw) && CheaperThan(last, front[k]) {
        forall j | 0 <= j < |front| && Beats(front[j], incumbent, raw)
          ensures CheaperThan(last, front[j]) && !CheaperThan(front[j], last)
        {
          CheaperThanExtends(last, front[k], front[j]);
        }
        assert LeastAt(|front|, incumbent, all, raw);
      } else {
        assert LeastAt(k, incumbent, all, raw);
      }
    }
  }

  lemma {:induction false} ScanFindsLeast(incumbent: Score, confirmed: seq<Score>, raw: Formula)
    requires SurroundsAll(raw) && WellFormed(incumbent)
    ensures
      var reference := WilsonCi(incumbent.passes, incumbent.n, raw).value;
      match CheapestQualifier(incumbent, reference, confirmed, raw)
      case Invalid => exists c <- confirmed :: !WellFormed(c) && Parity(c) >= Parity(incumbent)
      case Value(best) =>
        && (forall c <- confirmed :: !WellFormed(c) ==> Parity(c) < Parity(incumbent))
        && IsLeast(best, incumbent, confirmed, raw)
  {
    if confirmed != [] {
      var front, last := confirmed[..|confirmed| - 1], confirmed[|confirmed| - 1];
      assert confirmed == front + [last];
      var reference := WilsonCi(incumbent.passes, incumbent.n, raw).value;
      ScanFindsLeast(incumbent, front, raw);
      QualifiesIffBeats(incumbent, last, raw);
      match CheapestQualifier(incumbent, reference, front, raw)
      case Invalid =>
      case Value(best) => LeastOfMore(best, incumbent, front, last, raw);
    }
  }

  lemma CheaperThanExtends(a: Score, b: Score, c: Score)
    requires CheaperThan(a, b) && !CheaperThan(c, b)
    ensures !CheaperThan(c, a) && CheaperThan(a, c)
  {
    if a.costUsd == b.costUsd == c.costUsd {
      TextBeforeTransitive(a.model, b.model, c.model);
      TextBeforeTransitive(a.model, c.model, a.model);
    }
  }

  lemma CheaperThanIrreflexive(a: Score)
    ensures !CheaperThan(a, a)
  {
    if TextBefore(a.model, a.model) {
      TextBeforeTransitive(a.model, a.model, a.model);
    }
  }

  /**
   * pick_winner fails exactly on a malformed incumbent or a malformed candidate past the parity
   * gate; otherwise its winner lies wholly above the incumbent and is a cheapest such candidate,
   * and it answers None exactly when there is no such candidate.
   */
  lemma WinnerIsCheapestSeparated(incumbent: Score, confirmed: seq<Score>, raw: Formula)
    requires SurroundsAll(raw)
    ensures PickWinner(incumbent, confirmed, raw).Invalid? <==>
            || !WellFormed(incumbent)
            || exists c <- confirmed :: !WellFormed(c) && Parity(c) >= Parity(incumbent)
    ensures PickWinner(incumbent, confirmed, raw).Value? ==>
              IsCheapest(PickWinner(incumbent, confirmed, raw).value, incumbent, confirmed, raw)
  {
    if WellFormed(incumbent) {
      ScanFindsLeast(incumbent, confirmed, raw);
      if PickWinner(incumbent, confirmed, raw).Value? {
        LeastIsCheapest(PickWinner(incumbent, confirmed, raw).value, incumbent, confirmed, raw);
      }
    }
  }

  /** The same for the deployed formula: Wilson's interval, for every square root. */
  lemma WilsonWinner(incumbent: Score, confirmed: seq<Score>, root: real -> real)
    requires IsSqrt(root)
    ensures PickWinner(incumbent, confirmed, WilsonFormula(root)).Invalid? <==>
            || !WellFormed(incumbent)
            || exists c <- confirmed :: !WellFormed(c) && Parity(c) >= Parity(incumbent)
    ensures PickWinner(incumbent, confirmed, WilsonFormula(root)).Value? ==>
              IsCheapest(PickWinner(incumbent, confirmed, WilsonFormula(root)).value, incumbent, confirmed, WilsonFormula(root))
  {
    WilsonFormulaIsSound(root);
    WinnerIsCheapestSeparated(incumbent, confirmed, WilsonFormula(root));
  }

  // ----- the Pareto frontier -----

  datatype ParetoPoint = ParetoPoint(model: string, quality: real, costUsd: real, latencyMs: real,
                                     dominated: bool)

  predicate Dominates(a: Score, b: Score) {
    && Parity(a) >= Parity(b) && a.costUsd <= b.costUsd && a.latencyMs <= b.latencyMs
    && (Parity(a) > Parity(b) || a.costUsd < b.costUsd || a.latencyMs < b.latencyMs)
  }

  ghost predicate Dominated(scores: seq<Score>, x: Score) {
    exists other <- scores :: Dominates(other, x)
  }

  /** The point that reports a score. */
  ghost predicate PointOf(p: ParetoPoint, c: Score, scores: seq<Score>) {
    && p.model == c.model && p.quality == Parity(c) && p.costUsd == c.costUsd && p.latencyMs == c.latencyMs
    && (p.dominated <==> Dominated(scores, c))
  }

  /** The flags, in the terms of the points. */
  lemma FlagsMean(scores: seq<Score>, points: seq<ParetoPoint>, p: ParetoPoint)
    requires |points| == |scores| && forall i :: 0 <= i < |scores| ==> PointOf(points[i], scores[i], scores)
    requires p in points
    ensures p.dominated <==>
            exists o <- points ::
              && o.quality >= p.quality && o.costUsd <= p.costUsd && o.latencyMs <= p.latencyMs
              && (o.quality > p.quality || o.costUsd < p.costUsd || o.latencyMs < p.latencyMs)
  {
    var i :| 0 <= i < |points| && points[i] == p;
    assert PointOf(p, scores[i], scores);
    if p.dominated {
      var j :| 0 <= j < |scores| && Dominates(scores[j], scores[i]);
      assert PointOf(points[j], scores[j], scores);
      assert points[j] in points;
    }
    forall o | o in points
      ensures exists c <- scores :: PointOf(o, c, scores)
    {
      var j :| 0 <= j < |points| && points[j] == o;
      assert scores[j] in scores;
    }
  }

  /** One point per score, in order, flagged exactly when some point is no worse on any axis and better on one. */
  method ParetoFrontier(scores: seq<Score>) returns (points: seq<ParetoPoint>)
    ensures |points| == |scores|
    ensures forall i :: 0 <= i < |scores| ==> PointOf(points[i], scores[i], scores)
    ensures forall p <- points ::
              p.dominated <==>
              exists o <- points ::
                && o.quality >= p.quality && o.costUsd <= p.costUsd && o.latencyMs <= p.latencyMs
                && (o.quality > p.quality || o.costUsd < p.costUsd || o.latencyMs < p.latencyMs)
  {
    points := [];
    for i := 0 to |scores|
      invariant |points| == i
      invariant forall k :: 0 <= k < i ==> PointOf(points[k], scores[k], scores)
    {
      var c := scores[i];
      // The source skips the candidate itself; dominance is irreflexive, so nothing is lost.
      var dominated := exists j :: 0 <= j < |scores| && j != i && Dominates(scores[j], c);
      points := points + [ParetoPoint(c.model, Parity(c), c.costUsd, c.latencyMs, dominated)];
    }
    forall p | p in points
      ensures p.dominated <==>
              exists o <- points ::
                && o.quality >= p.quality && o.costUsd <= p.costUsd && o.latencyMs <= p.latencyMs
                && (o.quality > p.quality || o.costUsd < p.costUsd || o.latencyMs < p.latencyMs)
    {
      FlagsMean(scores, points, p);
    }
  }

  lemma DominanceIsStrictOrder(a: Score, b: Score, c: Score)
    ensures !Dominates(a, a)
    ensures Dominates(a, b) ==> !Dominates(b, a)
    ensures Dominates(a, b) && Dominates(b, c) ==> Dominates(a, c)
  {
  }

  ghost function Dominators(scores: seq<Score>, x: Score): (d: set<Score>) {
    set s | s in scores && Dominates(s, x)
  }

  /** Being dominated by any score and by an undominated one are the same: the frontier suffices. */
  lemma {:induction false} FrontierSuffices(scores: seq<Score>, x: Score)
    ensures Dominated(scores, x) <==>
            exists f <- scores :: Dominates(f, x) && !Dominated(scores, f)
    decreases |Dominators(scores, x)|
  {
    if Dominated(scores, x) {
      var s :| s in scores && Dominates(s, x);
      if Dominated(scores, s) {
        assert s in Dominators(scores, x) && s !in Dominators(scores, s);
        assert Dominators(scores, s) < Dominators(scores, x);
        Smaller(Dominators(scores, s), Dominators(scores, x));
        FrontierSuffices(scores, s);
      }
    }
  }

  lemma Smaller<T>(a: set<T>, b: set<T>)
    requires a < b
    ensures |a| < |b|
  {
    var extra := b - a;
    assert b == a + extra;
    assert extra != {};
  }

  /** A non-empty list always leaves a point unflagged. */
  lemma FrontierNonEmpty(scores: seq<Score>)
    requires scores != []
    ensures exists f <- scores :: !Dominated(scores, f)
  {
    FrontierSuffices(scores, scores[0]);
    assert scores[0] in scores;
  }
}
