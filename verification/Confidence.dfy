/** Binding tiers and the conservative confidence every rollup carries. */
module Confidence {

  datatype Option<+T> = None | Some(value: T)

  datatype BindingTier = Likely | Candidate | Deterministic | Exact

  /** Position in the least-trusted to most-trusted order. */
  function Trust(t: BindingTier): (n: nat)
    ensures n <= 3
  {
    match t
    case Likely => 0
    case Candidate => 1
    case Deterministic => 2
    case Exact => 3
  }

  lemma TrustInjective(s: BindingTier, t: BindingTier)
    ensures Trust(s) == Trust(t) <==> s == t
  {
  }

  predicate IsBillingGrade(t: BindingTier) {
    t == Exact || t == Deterministic
  }

  function Weaker(s: BindingTier, t: BindingTier): (w: BindingTier)
    ensures w == s || w == t
    ensures Trust(w) <= Trust(s) && Trust(w) <= Trust(t)
  {
    if Trust(s) <= Trust(t) then s else t
  }

  datatype RollupConfidence = RollupConfidence(minimumTier: BindingTier, distribution: map<BindingTier, nat>)

  function CountOf(c: RollupConfidence, t: BindingTier): (n: nat) {
    if t in c.distribution then c.distribution[t] else 0
  }

  /** The model validator: some tier is present, and the headline is the least trusted present one. */
  predicate Valid(c: RollupConfidence) {
    && CountOf(c, c.minimumTier) > 0
    && forall t :: CountOf(c, t) > 0 ==> Trust(c.minimumTier) <= Trust(t)
  }

  /** c reports exactly the given members: every one counted, the weakest one headlined. */
  ghost predicate Reports(c: RollupConfidence, members: multiset<BindingTier>) {
    && Valid(c)
    && forall t :: CountOf(c, t) == members[t]
  }

  /** The confidence of a non-empty collection of members. */
  function ConfidenceOf(members: multiset<BindingTier>): (c: RollupConfidence) {
    var least := if Likely in members then Likely
                 else if Candidate in members then Candidate
                 else if Deterministic in members then Deterministic
                 else Exact;
    RollupConfidence(least, TallyOf(members))
  }

  lemma ConfidenceReports(members: multiset<BindingTier>)
    requires |members| > 0
    ensures Reports(ConfidenceOf(members), members)
  {
    var t :| t in members;
    assert t == Likely || t == Candidate || t == Deterministic || t == Exact;
  }

  /** min(tiers, key=_TIER_ORDER.index) */
  function LeastTrusted(tiers: seq<BindingTier>): (t: BindingTier)
    requires tiers != []
    ensures t in tiers && forall k :: 0 <= k < |tiers| ==> Trust(t) <= Trust(tiers[k])
  {
    if |tiers| == 1 then tiers[0] else Weaker(tiers[0], LeastTrusted(tiers[1..]))
  }

  /** RollupConfidence.propagate: count the members, take the least trusted; None is its ValueError. */
  method Propagate(tiers: seq<BindingTier>) returns (r: Option<RollupConfidence>)
    ensures r == if tiers == [] then None else Some(ConfidenceOf(multiset(tiers)))
    ensures r.Some? ==> Valid(r.value)
  {
    if tiers == [] {
      return None;
    }
    var distribution: map<BindingTier, nat> := map[];
    for i := 0 to |tiers|
      invariant distribution == TallyOf(multiset(tiers[..i]))
    {
      var tier := tiers[i];
      assert tiers[..i + 1] == tiers[..i] + [tier];
      TallyPush(multiset(tiers[..i]), tier);
      distribution := distribution[tier := (if tier in distribution then distribution[tier] else 0) + 1];
    }
    assert tiers[..|tiers|] == tiers;
    var least := LeastTrusted(tiers);
    LeastIsHeadline(multiset(tiers), least);
    ConfidenceReports(multiset(tiers));
    return Some(RollupConfidence(least, distribution));
  }

  function TallyOf(members: multiset<BindingTier>): (m: map<BindingTier, nat>) {
    map t | t in members :: members[t]
  }

  lemma TallyPush(members: multiset<BindingTier>, tier: BindingTier)
    ensures TallyOf(members + multiset{tier}) ==
            TallyOf(members)[tier := (if tier in TallyOf(members) then TallyOf(members)[tier] else 0) + 1]
  {
  }

  lemma LeastIsHeadline(members: multiset<BindingTier>, least: BindingTier)
    requires least in members && forall t :: t in members ==> Trust(least) <= Trust(t)
    ensures ConfidenceOf(members).minimumTier == least
  {
    assert |members| > 0;
    ConfidenceReports(members);
    TrustInjective(ConfidenceOf(members).minimumTier, least);
  }

  /** A confidence is determined by what it reports. */
  lemma HeadlineUnique(c: RollupConfidence, d: RollupConfidence, members: multiset<BindingTier>)
    requires Reports(c, members) && Reports(d, members)
    ensures c.minimumTier == d.minimumTier
  {
    TrustInjective(c.minimumTier, d.minimumTier);
  }

  /** Aggregation never raises confidence: merging adds the counts and keeps the weaker headline. */
  lemma MergeReports(c: RollupConfidence, d: RollupConfidence, e: RollupConfidence,
                     a: multiset<BindingTier>, b: multiset<BindingTier>)
    requires Reports(c, a) && Reports(d, b) && Reports(e, a + b)
    ensures e.minimumTier == Weaker(c.minimumTier, d.minimumTier)
    ensures forall t :: CountOf(e, t) == CountOf(c, t) + CountOf(d, t)
  {
    var w := Weaker(c.minimumTier, d.minimumTier);
    assert CountOf(e, w) > 0;
    assert CountOf(c, e.minimumTier) > 0 || CountOf(d, e.minimumTier) > 0;
    TrustInjective(e.minimumTier, w);
  }
}
