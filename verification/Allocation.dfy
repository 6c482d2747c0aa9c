/** The three allocation tiers of one run and the rollup they are assembled into. */
module Allocation {
  import opened Numeric
  import opened Confidence
  import opened Allocator

  datatype AllocationTier = Direct | SharedProportional | FixedOverhead

  datatype Provenance = Measured | Allocated

  datatype ConfidenceLabel = High | Medium | Low

  datatype AllocatedLine = AllocatedLine(
    tier: AllocationTier, provenance: Provenance, amount: real,
    allocationKey: Option<string>, confidence: ConfidenceLabel, quarantined: bool)

  /** The line validator: labels, keys and quarantine follow the tier. */
  predicate WellLabeled(l: AllocatedLine) {
    && (l.provenance == Measured <==> l.tier == Direct)
    && (l.tier == SharedProportional ==> l.allocationKey.Some?)
    && (l.quarantined <==> l.tier == FixedOverhead)
  }

  ghost predicate LabeledLines(lines: seq<AllocatedLine>, tier: AllocationTier, confidence: ConfidenceLabel) {
    forall l :: l in lines ==> l.tier == tier && l.confidence == confidence && WellLabeled(l)
  }

  datatype SharedCostInput = SharedCostInput(
    amount: real, tier: AllocationTier, allocationKey: Option<string>, isIdleGpu: bool)

  function Amounts(lines: seq<AllocatedLine>): (a: seq<real>)
    ensures |a| == |lines|
  {
    seq(|lines|, i requires 0 <= i < |lines| => lines[i].amount)
  }

  function LineTotal(lines: seq<AllocatedLine>): (t: real) {
    Sum(Amounts(lines))
  }

  lemma LineTotalConcat(a: seq<AllocatedLine>, b: seq<AllocatedLine>)
    ensures LineTotal(a + b) == LineTotal(a) + LineTotal(b)
  {
    assert Amounts(a + b) == Amounts(a) + Amounts(b);
    SumConcat(Amounts(a), Amounts(b));
  }

  lemma AmountsPush(lines: seq<AllocatedLine>, line: AllocatedLine)
    ensures Amounts(lines + [line]) == Amounts(lines) + [line.amount]
  {
  }

  // ----- tier 1: measured cost, one line per known cost -----

  /** The known costs, in event order; a billing-uncertain event contributes none. */
  function Known(costs: seq<Option<real>>): (k: seq<real>) {
    if costs == [] then []
    else
      var last := costs[|costs| - 1];
      Known(costs[..|costs| - 1]) + (if last.Some? then [last.value] else [])
  }

  datatype Tier1Result = Tier1Result(lines: seq<AllocatedLine>, measuredTotal: real, unmeasured: nat)

  /** What the tier-1 loop has built from the costs read so far. */
  ghost predicate DirectSoFar(costs: seq<Option<real>>, lines: seq<AllocatedLine>, total: real, unmeasured: nat) {
    && Amounts(lines) == Known(costs) && total == Sum(Known(costs))
    && |lines| + unmeasured == |costs| && LabeledLines(lines, Direct, High)
  }

  function DirectLine(x: real): (line: AllocatedLine) {
    AllocatedLine(Direct, Measured, x, None, High, false)
  }

  lemma KnownPush(costs: seq<Option<real>>, cost: Option<real>)
    ensures Known(costs + [cost]) == Known(costs) + (if cost.Some? then [cost.value] else [])
  {
    assert (costs + [cost])[..|costs|] == costs;
  }

  lemma DirectPush(costs: seq<Option<real>>, cost: Option<real>, lines: seq<AllocatedLine>, total: real, unmeasured: nat)
    requires DirectSoFar(costs, lines, total, unmeasured)
    ensures cost.None? ==> DirectSoFar(costs + [cost], lines, total, unmeasured + 1)
    ensures cost.Some? ==>
              DirectSoFar(costs + [cost], lines + [DirectLine(cost.value)], total + cost.value, unmeasured)
  {
    KnownPush(costs, cost);
    if cost.Some? {
      SumPush(Known(costs), cost.value);
      AmountsPush(lines, DirectLine(cost.value));
    } else {
      assert Known(costs) + [] == Known(costs);
    }
  }

  method DirectLines(costs: seq<Option<real>>) returns (r: Tier1Result)
    ensures Amounts(r.lines) == Known(costs) && r.measuredTotal == Sum(Known(costs))
    ensures |r.lines| + r.unmeasured == |costs|
    ensures LabeledLines(r.lines, Direct, High)
  {
    var lines, measuredTotal, unmeasured := [], 0.0, 0;
    for i := 0 to |costs|
      invariant DirectSoFar(costs[..i], lines, measuredTotal, unmeasured)
    {
      assert costs[..i + 1] == costs[..i] + [costs[i]];
      DirectPush(costs[..i], costs[i], lines, measuredTotal, unmeasured);
      if costs[i].None? {
        unmeasured := unmeasured + 1;
      } else {
        measuredTotal := measuredTotal + costs[i].value;
        lines := lines + [DirectLine(costs[i].value)];
      }
    }
    assert costs[..|costs|] == costs;
    return Tier1Result(lines, measuredTotal, unmeasured);
  }

  // ----- tier 2: a shared cost split over the consumers -----

  /** What splitting one shared cost over the consumers adds up to. */
  ghost function SplitTotal(amount: real, weights: seq<real>): (t: real) {
    if weights == [] || Sum(weights) == 0.0 then 0.0 else Target(amount, Allocator.Exact(amount, weights)) as real
  }

  predicate Splittable(shared: SharedCostInput, weights: seq<real>) {
    && shared.allocationKey.Some?
    && (weights == [] || Sum(weights) != 0.0 || shared.amount == 0.0)
  }

  lemma {:induction false} SumZeros(n: nat)
    ensures SumInt(seq(n, k => 0)) == 0
  {
    if n > 0 {
      SumZeros(n - 1);
      assert seq(n, k => 0)[..n - 1] == seq(n - 1, k => 0);
    }
  }

  /** One line per weight, proportional to it; all zero over zero weight. */
  ghost predicate ShareTheCost(amount: real, weights: seq<real>, lines: seq<AllocatedLine>) {
    if Sum(weights) != 0.0 then Proportional(amount, weights, Amounts(lines))
    else |lines| == |weights| && forall l :: l in lines ==> l.amount == 0.0
  }

  method Tier2Lines(shared: SharedCostInput, weights: seq<real>) returns (r: Result<seq<AllocatedLine>>)
    ensures r.Ok? <==> Splittable(shared, weights)
    ensures r.Ok? ==> |r.value| == |weights| && LineTotal(r.value) == SplitTotal(shared.amount, weights)
    ensures r.Ok? ==> ShareTheCost(shared.amount, weights, r.value)
    ensures r.Ok? ==> LabeledLines(r.value, SharedProportional, Medium)
  {
    if shared.allocationKey.None? {
      return Err(MissingAllocationKey);
    }
    if weights == [] {
      return Ok([]);
    }
    var split := Allocate(shared.amount, weights);
    if split.Err? {
      return Err(split.error);
    }
    var lines := LinesFor(split.value, shared.allocationKey);
    LinesForShare(shared, weights, split.value);
    return Ok(lines);
  }

  function LinesFor(parts: seq<int>, key: Option<string>): (lines: seq<AllocatedLine>)
    requires key.Some?
    ensures |lines| == |parts| && Amounts(lines) == AsReals(parts)
    ensures LabeledLines(lines, SharedProportional, Medium)
  {
    var lines := seq(|parts|, i requires 0 <= i < |parts| =>
      AllocatedLine(SharedProportional, Allocated, parts[i] as real, key, Medium, false));
    assert Amounts(lines) == AsReals(parts);
    lines
  }

  lemma LinesForShare(shared: SharedCostInput, weights: seq<real>, parts: seq<int>)
    requires weights != [] && shared.allocationKey.Some?
    requires Sum(weights) == 0.0 ==> parts == seq(|weights|, k => 0)
    requires Sum(weights) != 0.0 ==>
               FairSplit(shared.amount, Allocator.Exact(shared.amount, weights), parts) && SplitByWeights(shared.amount, weights, parts)
    ensures LineTotal(LinesFor(parts, shared.allocationKey)) == SplitTotal(shared.amount, weights)
    ensures ShareTheCost(shared.amount, weights, LinesFor(parts, shared.allocationKey))
  {
    var lines := LinesFor(parts, shared.allocationKey);
    SumAsReals(parts);
    SumZeros(|weights|);
    if Sum(weights) == 0.0 {
      forall i | 0 <= i < |lines| ensures lines[i].amount == 0.0 {
        assert Amounts(lines)[i] == AsReals(parts)[i];
      }
    }
  }

  // ----- tier 3: fixed overhead, idle capacity held beside the unit cost -----

  function Overhead(inputs: seq<SharedCostInput>, idle: bool): (t: real) {
    if inputs == [] then 0.0
    else
      var last := inputs[|inputs| - 1];
      Overhead(inputs[..|inputs| - 1], idle) +
      (if last.tier == FixedOverhead && last.isIdleGpu == idle then last.amount else 0.0)
  }

  function InputsForTier(inputs: seq<SharedCostInput>, tier: AllocationTier): (r: seq<SharedCostInput>)
    ensures forall x :: x in r ==> x.tier == tier && x in inputs
  {
    if inputs == [] then []
    else
      var last := inputs[|inputs| - 1];
      InputsForTier(inputs[..|inputs| - 1], tier) + (if last.tier == tier then [last] else [])
  }

  /** The amounts of all given inputs on one side of the idle flag, whatever tier they declare. */
  function Flagged(inputs: seq<SharedCostInput>, idle: bool): (t: real) {
    if inputs == [] then 0.0
    else
      var last := inputs[|inputs| - 1];
      Flagged(inputs[..|inputs| - 1], idle) + (if last.isIdleGpu == idle then last.amount else 0.0)
  }

  lemma FlaggedPush(inputs: seq<SharedCostInput>, x: SharedCostInput, idle: bool)
    ensures Flagged(inputs + [x], idle) == Flagged(inputs, idle) + (if x.isIdleGpu == idle then x.amount else 0.0)
  {
    assert (inputs + [x])[..|inputs|] == inputs;
  }

  /** Selecting the fixed-overhead inputs leaves exactly the overhead of all inputs. */
  lemma {:induction false} OverheadOfTier(inputs: seq<SharedCostInput>, idle: bool)
    ensures Flagged(InputsForTier(inputs, FixedOverhead), idle) == Overhead(inputs, idle)
  {
    if inputs != [] {
      var front, last := inputs[..|inputs| - 1], inputs[|inputs| - 1];
      OverheadOfTier(front, idle);
      var mine := InputsForTier(front, FixedOverhead);
      if last.tier == FixedOverhead {
        FlaggedPush(mine, last, idle);
      } else {
        assert mine + [] == mine;
      }
    }
  }

  datatype Tier3Result = Tier3Result(lines: seq<AllocatedLine>, inUnit: real, idle: real)

  method Tier3Lines(inputs: seq<SharedCostInput>) returns (r: Tier3Result)
    ensures r.inUnit == Flagged(inputs, false) && r.idle == Flagged(inputs, true)
    ensures |r.lines| == |inputs| && LineTotal(r.lines) == r.inUnit + r.idle
    ensures LabeledLines(r.lines, FixedOverhead, Low)
  {
    var lines, inUnit, idle := [], 0.0, 0.0;
    for i := 0 to |inputs|
      invariant inUnit == Flagged(inputs[..i], false) && idle == Flagged(inputs[..i], true)
      invariant |lines| == i && LineTotal(lines) == inUnit + idle
      invariant LabeledLines(lines, FixedOverhead, Low)
    {
      var shared := inputs[i];
      assert inputs[..i + 1][..i] == inputs[..i];
      var line := AllocatedLine(FixedOverhead, Allocated, shared.amount, None, Low, true);
      assert Amounts(lines + [line]) == Amounts(lines) + [shared.amount];
      SumPush(Amounts(lines), shared.amount);
      lines := lines + [line];
      if shared.isIdleGpu {
        idle := idle + shared.amount;
      } else {
        inUnit := inUnit + shared.amount;
      }
    }
    assert inputs[..|inputs|] == inputs;
    return Tier3Result(lines, inUnit, idle);
  }

  // ----- the rollup -----

  const PCT_SCALE := 10_000_000_000.0

  /** The fraction of the true cost that the accounted amount leaves open. */
  function OpenShare(estimate: real, accounted: real): (share: real)
    requires estimate > 0.0
  {
    Max(estimate - accounted, 0.0) / estimate
  }

  /** That fraction in percent, to 10 places; 0 when there is no positive estimate. */
  function PctUnallocated(estimate: real, accounted: real): (pct: real) {
    if estimate <= 0.0 then 0.0 else Quantize(OpenShare(estimate, accounted) * 100.0, PCT_SCALE)
  }

  function TierOfLabel(l: ConfidenceLabel): (t: BindingTier) {
    match l
    case High => BindingTier.Exact
    case Medium => BindingTier.Candidate
    case Low => BindingTier.Likely
  }

  datatype AllocatedRollup = AllocatedRollup(
    lines: seq<AllocatedLine>, pctUnallocated: real, confidence: RollupConfidence,
    reconciled: real, estimateOnly: real)

  /** What the shared-proportional inputs contribute after each was split over the consumers. */
  ghost function ProportionalTotal(inputs: seq<SharedCostInput>, weights: seq<real>): (t: real) {
    if inputs == [] then 0.0
    else
      var last := inputs[|inputs| - 1];
      ProportionalTotal(inputs[..|inputs| - 1], weights) +
      (if last.tier == SharedProportional then SplitTotal(last.amount, weights) else 0.0)
  }

  /** What those inputs declare, before any rounding. */
  ghost function DeclaredProportional(inputs: seq<SharedCostInput>): (t: real) {
    if inputs == [] then 0.0
    else
      var last := inputs[|inputs| - 1];
      DeclaredProportional(inputs[..|inputs| - 1]) + (if last.tier == SharedProportional then last.amount else 0.0)
  }

  /** Whole-quantum shared costs with consumers are passed on to the last quantum. */
  lemma {:induction false} ProportionalIsConserved(inputs: seq<SharedCostInput>, weights: seq<real>)
    requires weights != [] && forall x :: x in inputs && x.tier == SharedProportional ==>
                                            IsWhole(x.amount) && Splittable(x, weights)
    ensures ProportionalTotal(inputs, weights) == DeclaredProportional(inputs)
  {
    if inputs != [] {
      var last := inputs[|inputs| - 1];
      assert last in inputs;
      ProportionalIsConserved(inputs[..|inputs| - 1], weights);
      if last.tier == SharedProportional && Sum(weights) != 0.0 {
        var exact := Allocator.Exact(last.amount, weights);
        ExactIffWhole(last.amount, SumInt(Rounded(exact)), Target(last.amount, exact));
      }
    }
  }

  ghost function Accounted(costs: seq<Option<real>>, inputs: seq<SharedCostInput>, weights: seq<real>): (t: real) {
    Sum(Known(costs)) + ProportionalTotal(inputs, weights) + Overhead(inputs, false)
  }

  function ActiveInputs(inputs: seq<SharedCostInput>): (r: seq<SharedCostInput>) {
    if inputs == [] then []
    else
      var last := inputs[|inputs| - 1];
      ActiveInputs(inputs[..|inputs| - 1]) +
      (if last.tier == FixedOverhead && last.isIdleGpu then [] else [last])
  }

  /** Idle capacity is quarantined: what a run accounts for is a function of the other inputs. */
  lemma {:induction false} IdleNeverAccounted(costs: seq<Option<real>>, inputs: seq<SharedCostInput>, weights: seq<real>)
    ensures Accounted(costs, ActiveInputs(inputs), weights) == Accounted(costs, inputs, weights)
  {
    if inputs != [] {
      var front, last := inputs[..|inputs| - 1], inputs[|inputs| - 1];
      IdleNeverAccounted(costs, front, weights);
      var active := ActiveInputs(inputs);
      if active != ActiveInputs(front) {
        assert active[..|active| - 1] == ActiveInputs(front);
      }
    }
  }

  /** The honesty anchor: between 0 and 100, and never raised by accounting for more. */
  lemma PctUnallocatedRange(estimate: real, accounted: real, more: real)
    requires accounted <= more
    ensures PctUnallocated(estimate, more) <= PctUnallocated(estimate, accounted)
    ensures accounted >= 0.0 ==> 0.0 <= PctUnallocated(estimate, accounted) <= 100.0
    ensures accounted >= estimate ==> PctUnallocated(estimate, accounted) == 0.0
  {
    if estimate > 0.0 {
      OpenShareRange(estimate, accounted, more);
      var open, rest := OpenShare(estimate, accounted) * 100.0, OpenShare(estimate, more) * 100.0;
      QuantizeMonotone(rest, open, PCT_SCALE);
      QuantizeZeroAndHundred();
      QuantizeMonotone(0.0, open, PCT_SCALE);
      if accounted >= 0.0 {
        QuantizeMonotone(open, 100.0, PCT_SCALE);
      }
    }
  }

  /** The percentage is what the accounted amount leaves of the estimate, to ten places, never negative. */
  lemma PctUnallocatedMeans(estimate: real, accounted: real)
    requires estimate > 0.0
    ensures
      var pct, open := PctUnallocated(estimate, accounted), if accounted < estimate then estimate - accounted else 0.0;
      Abs(pct * estimate - 100.0 * open) * PCT_SCALE <= 0.5 * estimate
  {
    QuotientTimes(Max(estimate - accounted, 0.0), estimate);
    QuantizedPct(OpenShare(estimate, accounted), Max(estimate - accounted, 0.0), estimate);
  }

  lemma QuantizedPct(share: real, open: real, estimate: real)
    requires estimate > 0.0 && share * estimate == open
    ensures Abs(Quantize(share * 100.0, PCT_SCALE) * estimate - 100.0 * open) * PCT_SCALE <= 0.5 * estimate
  {
    var pct := Quantize(share * 100.0, PCT_SCALE);
    QuantizedNear(share * 100.0, PCT_SCALE);
    NearTimes(pct - share * 100.0, estimate);
    Distribute(estimate, pct, share * 100.0);
    assert estimate * (share * 100.0) == 100.0 * open;
    AbsEqual(pct * estimate - 100.0 * open, estimate * (pct - share * 100.0));
  }

  lemma AbsEqual(x: real, y: real)
    requires x == y
    ensures Abs(x) == Abs(y)
  {
  }

  lemma QuantizedNear(x: real, scale: real)
    requires scale > 0.0
    ensures -0.5 <= (Quantize(x, scale) - x) * scale <= 0.5
  {
    var k := HalfEven(x * scale) as real;
    QuotientTimes(k, scale);
    Distribute(scale, k / scale, x);
  }

  lemma NearTimes(e: real, d: real)
    requires d > 0.0 && -0.5 <= e * PCT_SCALE <= 0.5
    ensures Abs(d * e) * PCT_SCALE <= 0.5 * d
  {
    var s := e * PCT_SCALE;
    ProductNonNegative(d, 0.5 - s);
    ProductNonNegative(d, s + 0.5);
    Distribute(d, 0.5, s);
    Distribute(d, s, 0.5);
    assert d * s == (d * e) * PCT_SCALE;
  }

  lemma OpenShareRange(estimate: real, accounted: real, more: real)
    requires estimate > 0.0 && accounted <= more
    ensures 0.0 <= OpenShare(estimate, more) <= OpenShare(estimate, accounted)
    ensures accounted >= 0.0 ==> OpenShare(estimate, accounted) <= 1.0
    ensures accounted >= estimate ==> OpenShare(estimate, accounted) == 0.0
  {
    var open, rest := Max(estimate - accounted, 0.0), Max(estimate - more, 0.0);
    DivideMonotone(0.0, rest, estimate);
    DivideMonotone(rest, open, estimate);
    if accounted >= 0.0 {
      DivideMonotone(open, estimate, estimate);
    }
  }

  lemma QuantizeZeroAndHundred()
    ensures Quantize(0.0, PCT_SCALE) == 0.0 && Quantize(100.0, PCT_SCALE) == 100.0
  {
    HalfEvenWhole(0);
    HalfEvenWhole(1_000_000_000_000);
  }

  lemma LineHeadline(lines: seq<AllocatedLine>, tiers: seq<BindingTier>)
    requires lines != [] && |tiers| == |lines|
    requires forall i :: 0 <= i < |lines| ==> tiers[i] == TierOfLabel(lines[i].confidence)
    ensures var least := ConfidenceOf(multiset(tiers)).minimumTier;
            && (forall l :: l in lines ==> Trust(least) <= Trust(TierOfLabel(l.confidence)))
            && exists l :: l in lines && TierOfLabel(l.confidence) == least
  {
    var least := LeastTrusted(tiers);
    LeastIsHeadline(multiset(tiers), least);
    var i :| 0 <= i < |tiers| && tiers[i] == least;
    assert lines[i] in lines;
  }

  /** The headline is the weakest tier any line carries; an empty allocation is trivially exact. */
  ghost predicate HeadlinesLines(c: RollupConfidence, lines: seq<AllocatedLine>) {
    && Valid(c)
    && (lines == [] ==> c.minimumTier == BindingTier.Exact)
    && (forall l :: l in lines ==> Trust(c.minimumTier) <= Trust(TierOfLabel(l.confidence)))
    && (lines != [] ==> exists l :: l in lines && TierOfLabel(l.confidence) == c.minimumTier)
  }

  method LineConfidence(lines: seq<AllocatedLine>) returns (c: RollupConfidence)
    ensures HeadlinesLines(c, lines)
  {
    if lines == [] {
      return RollupConfidence(BindingTier.Exact, map[BindingTier.Exact := 1]);
    }
    var tiers := seq(|lines|, i requires 0 <= i < |lines| => TierOfLabel(lines[i].confidence));
    var p := Propagate(tiers);
    LineHeadline(lines, tiers);
    return p.value;
  }

  method BuildRollup(tier1: Tier1Result, tier2: seq<AllocatedLine>, tier3: Tier3Result, estimate: real)
    returns (r: AllocatedRollup)
    ensures r.lines == tier1.lines + tier2 + tier3.lines
    ensures r.reconciled == tier1.measuredTotal && r.estimateOnly == LineTotal(tier2) + tier3.inUnit
    ensures r.pctUnallocated == PctUnallocated(estimate, r.reconciled + r.estimateOnly)
    ensures HeadlinesLines(r.confidence, r.lines)
  {
    var lines := tier1.lines + tier2 + tier3.lines;
    var shares := LineTotal(tier2) + tier3.inUnit;
    var confidence := LineConfidence(lines);
    r := AllocatedRollup(lines, PctUnallocated(estimate, tier1.measuredTotal + shares), confidence,
                         tier1.measuredTotal, shares);
  }

  /** One turn of the tier-2 loop. */
  method AppendLines(lines: seq<AllocatedLine>, shared: SharedCostInput, weights: seq<real>)
    returns (r: Result<seq<AllocatedLine>>)
    requires LabeledLines(lines, SharedProportional, Medium)
    ensures r.Ok? <==> Splittable(shared, weights)
    ensures r.Ok? ==> LineTotal(r.value) == LineTotal(lines) + SplitTotal(shared.amount, weights)
    ensures r.Ok? ==> LabeledLines(r.value, SharedProportional, Medium)
  {
    var next := Tier2Lines(shared, weights);
    if next.Err? {
      return Err(next.error);
    }
    LineTotalConcat(lines, next.value);
    return Ok(lines + next.value);
  }

  /** The tier-2 loop over the declared shared-proportional inputs. */
  method ProportionalLines(shared: seq<SharedCostInput>, weights: seq<real>) returns (r: Result<seq<AllocatedLine>>)
    requires forall x :: x in shared ==> x.tier == SharedProportional
    ensures r.Ok? <==> forall x :: x in shared ==> Splittable(x, weights)
    ensures r.Ok? ==> LineTotal(r.value) == ProportionalTotal(shared, weights)
    ensures r.Ok? ==> LabeledLines(r.value, SharedProportional, Medium)
  {
    var lines: seq<AllocatedLine> := [];
    for i := 0 to |shared|
      invariant forall k :: 0 <= k < i ==> Splittable(shared[k], weights)
      invariant LineTotal(lines) == ProportionalTotal(shared[..i], weights)
      invariant LabeledLines(lines, SharedProportional, Medium)
    {
      var next := AppendLines(lines, shared[i], weights);
      assert shared[i] in shared;
      if next.Err? {
        return Err(next.error);
      }
      assert shared[..i + 1] == shared[..i] + [shared[i]];
      ProportionalPush(shared[..i], shared[i], weights);
      lines := next.value;
    }
    assert shared[..|shared|] == shared;
    return Ok(lines);
  }

  /** The weakest tier that has a line is the headline. */
  lemma Headline(r: AllocatedRollup, direct: seq<AllocatedLine>, proportional: seq<AllocatedLine>, fixed: seq<AllocatedLine>)
    requires r.lines == direct + proportional + fixed
    requires LabeledLines(direct, Direct, High) && LabeledLines(proportional, SharedProportional, Medium)
    requires LabeledLines(fixed, FixedOverhead, Low)
    requires HeadlinesLines(r.confidence, r.lines)
    ensures r.confidence.minimumTier == HeadlineTier(r.lines)
    ensures forall l :: l in r.lines ==> WellLabeled(l)
  {
    if r.lines != [] {
      var l :| l in r.lines && TierOfLabel(l.confidence) == r.confidence.minimumTier;
      assert l in direct || l in proportional || l in fixed;
    }
  }

  ghost function HeadlineTier(lines: seq<AllocatedLine>): (t: BindingTier) {
    if exists l :: l in lines && l.tier == FixedOverhead then BindingTier.Likely
    else if exists l :: l in lines && l.tier == SharedProportional then BindingTier.Candidate
    else BindingTier.Exact
  }

  lemma LinesAddUp(r: AllocatedRollup, tier1: Tier1Result, tier2: seq<AllocatedLine>, tier3: Tier3Result)
    requires r.lines == tier1.lines + tier2 + tier3.lines
    ensures LineTotal(r.lines) == LineTotal(tier1.lines) + LineTotal(tier2) + LineTotal(tier3.lines)
  {
    LineTotalConcat(tier1.lines + tier2, tier3.lines);
    LineTotalConcat(tier1.lines, tier2);
  }

  /**
   * The lines add up to what is accounted for plus the idle capacity held beside it, the headline
   * confidence is the weakest tier that has a line, and no allocated line reads as measured.
   */
  ghost predicate RollsUp(r: AllocatedRollup, costs: seq<Option<real>>, inputs: seq<SharedCostInput>,
                          weights: seq<real>, estimate: real)
  {
    && LineTotal(r.lines) == Accounted(costs, inputs, weights) + Overhead(inputs, true)
    && r.reconciled == Sum(Known(costs))
    && r.reconciled + r.estimateOnly == Accounted(costs, inputs, weights)
    && r.pctUnallocated == PctUnallocated(estimate, r.reconciled + r.estimateOnly)
    && Valid(r.confidence) && r.confidence.minimumTier == HeadlineTier(r.lines)
    && forall l :: l in r.lines ==> WellLabeled(l)
  }

  method AssembleRun(costs: seq<Option<real>>, inputs: seq<SharedCostInput>, ghost weights: seq<real>,
                     tier2: seq<AllocatedLine>, estimate: real)
    returns (r: AllocatedRollup)
    requires LineTotal(tier2) == ProportionalTotal(inputs, weights)
    requires LabeledLines(tier2, SharedProportional, Medium)
    ensures RollsUp(r, costs, inputs, weights, estimate)
  {
    var tier1 := DirectLines(costs);
    var tier3 := Tier3Lines(InputsForTier(inputs, FixedOverhead));
    r := BuildRollup(tier1, tier2, tier3, estimate);
    LinesAddUp(r, tier1, tier2, tier3);
    OverheadOfTier(inputs, false);
    OverheadOfTier(inputs, true);
    Headline(r, tier1.lines, tier2, tier3.lines);
  }

  /** One run through all three tiers; it fails exactly when some shared cost cannot be split. */
  method AllocateRun(costs: seq<Option<real>>, inputs: seq<SharedCostInput>, weights: seq<real>, estimate: real)
    returns (r: Result<AllocatedRollup>)
    ensures r.Ok? <==> forall x :: x in inputs && x.tier == SharedProportional ==> Splittable(x, weights)
    ensures r.Ok? ==> RollsUp(r.value, costs, inputs, weights, estimate)
  {
    ProportionalOfTier(inputs, weights);
    var tier2 := ProportionalLines(InputsForTier(inputs, SharedProportional), weights);
    if tier2.Err? {
      return Err(tier2.error);
    }
    var rollup := AssembleRun(costs, inputs, weights, tier2.value, estimate);
    return Ok(rollup);
  }

  lemma ProportionalPush(inputs: seq<SharedCostInput>, x: SharedCostInput, weights: seq<real>)
    ensures ProportionalTotal(inputs + [x], weights) ==
            ProportionalTotal(inputs, weights) +
            (if x.tier == SharedProportional then SplitTotal(x.amount, weights) else 0.0)
  {
    assert (inputs + [x])[..|inputs|] == inputs;
  }

  lemma {:induction false} ProportionalOfTier(inputs: seq<SharedCostInput>, weights: seq<real>)
    ensures ProportionalTotal(InputsForTier(inputs, SharedProportional), weights) == ProportionalTotal(inputs, weights)
    ensures forall x :: x in inputs && x.tier == SharedProportional ==> x in InputsForTier(inputs, SharedProportional)
  {
    if inputs != [] {
      var front, last := inputs[..|inputs| - 1], inputs[|inputs| - 1];
      ProportionalOfTier(front, weights);
      var mine := InputsForTier(front, SharedProportional);
      if last.tier == SharedProportional {
        ProportionalPush(mine, last, weights);
      } else {
        assert mine + [] == mine;
      }
    }
  }
}
