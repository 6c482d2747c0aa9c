/**
 * What a metric reports, cell by cell: the reference definitions the executor is proved
 * against. A query holds everything one run of a plan reads, with filters already applied.
 */
module Metrics {
  import opened Numeric
  import opened Folds
  import opened Confidence
  import opened Alias
  import opened Records

  datatype Dimension = Provider | Model | AgentName | OutcomeName | Tenant

  datatype Measure = TotalCostUsd | AttemptCount | OutcomeCount | VerifiedOutcomeCount

  datatype Plan = Plan(
    numerator: Measure, denominator: Measure,
    filters: seq<(Dimension, string)>, groupBy: seq<Dimension>)

  type Key = seq<(Dimension, string)>

  datatype Query = Query(
    plan: Plan, tenant: TenantId, events: seq<CostEvent>, outcomes: seq<OutcomeEvent>,
    runs: Option<map<RunId, Run>>, aliases: seq<EntityAlias>)

  const UNKNOWN_AGENT := "unknown"

  // ----- group keys -----

  function AgentOf(runs: Option<map<RunId, Run>>, r: RunId): (agent: string) {
    if runs.Some? && r in runs.value && runs.value[r].agentName.Some?
    then runs.value[r].agentName.value
    else UNKNOWN_AGENT
  }

  function CostValue(q: Query, e: CostEvent, d: Dimension): (v: string)
    requires d != OutcomeName
  {
    match d
    case Provider => e.provider
    case Model => e.model
    case AgentName => AgentOf(q.runs, e.runId)
    case Tenant => q.tenant
  }

  /** The event's key over the cost-keyed dimensions of a grouping. */
  function CostKey(q: Query, e: CostEvent, groupBy: seq<Dimension>): (k: Key) {
    if groupBy == [] then []
    else
      var d := groupBy[|groupBy| - 1];
      CostKey(q, e, groupBy[..|groupBy| - 1]) + (if d == OutcomeName then [] else [(d, CostValue(q, e, d))])
  }

  /** The outcome's key over the outcome-keyed dimensions of a grouping. */
  function OutcomeKey(o: OutcomeEvent, groupBy: seq<Dimension>): (k: Key) {
    if groupBy == [] then []
    else
      var d := groupBy[|groupBy| - 1];
      OutcomeKey(o, groupBy[..|groupBy| - 1]) + (if d == OutcomeName then [(d, o.name)] else [])
  }

  /** dict(k).get(d): the last pair wins, as in a dictionary built from pairs. */
  function Lookup(k: Key, d: Dimension): (v: Option<string>) {
    if k == [] then None
    else if k[|k| - 1].0 == d then Some(k[|k| - 1].1)
    else Lookup(k[..|k| - 1], d)
  }

  /** Every pair of the cell key whose field the record has is one the record agrees with. */
  predicate MatchesKey(record: Key, cell: Key) {
    forall p :: p in cell ==> Lookup(record, p.0) == None || Lookup(record, p.0) == Some(p.1)
  }

  /** The keys of a list in order of first appearance, blank keys dropped. */
  function FirstSeen(keys: seq<Key>): (r: seq<Key>) {
    if keys == [] then []
    else
      var front, last := FirstSeen(keys[..|keys| - 1]), keys[|keys| - 1];
      if last == [] || last in front then front else front + [last]
  }

  /** Event keys, then outcome keys, in listing order. */
  function RecordKeys(q: Query): (ks: seq<Key>) {
    seq(|q.events|, i requires 0 <= i < |q.events| => CostKey(q, q.events[i], q.plan.groupBy)) +
    seq(|q.outcomes|, i requires 0 <= i < |q.outcomes| => OutcomeKey(q.outcomes[i], q.plan.groupBy))
  }

  /** The groups of a report: the keys present, or one blank group. */
  function CellKeys(q: Query): (ks: seq<Key>) {
    var ks := FirstSeen(RecordKeys(q));
    if q.plan.groupBy == [] || ks == [] then [[]] else ks
  }

  // ----- outcomes: classes, tiers, producing runs -----

  datatype OutcomeClass = Verified | Advisory | Attempted | Retracted

  function ClassOf(o: OutcomeEvent): (c: OutcomeClass) {
    match o.signal
    case ActionAttempted => Attempted
    case OutcomeRetracted => Retracted
    case OutcomeConfirmed =>
      if o.binding.tier.Some? && IsBillingGrade(o.binding.tier.value) then Verified else Advisory
  }

  /** The tiers an outcome adds to the distribution: attempts add none. */
  function TierOf(o: OutcomeEvent): (t: multiset<BindingTier>) {
    if o.signal == ActionAttempted || o.binding.tier.None? then multiset{} else multiset{o.binding.tier.value}
  }

  function TierTally(outcomes: seq<OutcomeEvent>): (t: multiset<BindingTier>) {
    if outcomes == [] then multiset{}
    else TierTally(outcomes[..|outcomes| - 1]) + TierOf(outcomes[|outcomes| - 1])
  }

  ghost predicate Reaches(run: Run, keys: set<EntityKey>, aliases: seq<EntityAlias>) {
    exists k, x :: k in keys && x in run.entityKeys && SameEntity(aliases, k, x)
  }

  /** Runs that carry a key of the same entity as one of the outcome's keys. */
  ghost function EntityRuns(keys: set<EntityKey>, runs: Option<map<RunId, Run>>, aliases: seq<EntityAlias>): (rs: set<RunId>) {
    if runs.None? then {} else set r | r in runs.value && Reaches(runs.value[r], keys, aliases)
  }

  /** The runs one outcome names, directly or through its entities. */
  ghost function RunsOf(q: Query, o: OutcomeEvent): (rs: set<RunId>) {
    if o.binding.runId.Some? then {o.binding.runId.value} else EntityRuns(o.entityKeys, q.runs, q.aliases)
  }

  /** o is a billing-grade outcome of run r. */
  ghost predicate CountsFor(q: Query, o: OutcomeEvent, r: RunId) {
    ClassOf(o) == Verified && r in RunsOf(q, o)
  }

  ghost function TimesIn(q: Query, outcomes: seq<OutcomeEvent>, r: RunId): (n: nat) {
    CountBy(outcomes, o => CountsFor(q, o, r))
  }

  ghost function TimesProduced(q: Query, r: RunId): (n: nat) {
    TimesIn(q, q.outcomes, r)
  }

  predicate CostPerOutcome(plan: Plan) {
    plan.numerator == TotalCostUsd && plan.denominator == VerifiedOutcomeCount
  }

  /** The run produced more than one billing-grade outcome. */
  ghost predicate Overlapping(q: Query, r: RunId) {
    CostPerOutcome(q.plan) && TimesProduced(q, r) > 1
  }

  /** The part of a run's cost that one cell is charged: split only when grouping by outcome name. */
  ghost function ShareOf(q: Query, r: RunId): (s: real) {
    if OutcomeName in q.plan.groupBy && Overlapping(q, r) then 1.0 / TimesProduced(q, r) as real else 1.0
  }

  // ----- one cell -----

  predicate InCell(q: Query, key: Key, o: OutcomeEvent) {
    MatchesKey(OutcomeKey(o, q.plan.groupBy), key)
  }

  predicate EventInCell(q: Query, key: Key, e: CostEvent) {
    MatchesKey(CostKey(q, e, q.plan.groupBy), key)
  }

  /** Some billing-grade outcome of this cell was produced by run r. */
  ghost predicate Produces(q: Query, key: Key, r: RunId) {
    exists o :: o in q.outcomes && InCell(q, key, o) && CountsFor(q, o, r)
  }

  ghost predicate HasProducer(q: Query, key: Key) {
    exists r :: Produces(q, key, r)
  }

  /** The event is in the numerator: in the cell, and on a producing run if the cell has any. */
  ghost predicate InNumerator(q: Query, key: Key, e: CostEvent) {
    EventInCell(q, key, e) && (CostPerOutcome(q.plan) && HasProducer(q, key) ==> Produces(q, key, e.runId))
  }

  function CostOf(e: CostEvent): (c: real) {
    if e.cost.Some? then e.cost.value else 0.0
  }

  /** The event's cost as one cell is charged for it. */
  ghost function SplitCost(q: Query, e: CostEvent): (c: real) {
    CostOf(e) * ShareOf(q, e.runId)
  }

  ghost function Charge(q: Query, key: Key, e: CostEvent): (c: real) {
    if InNumerator(q, key, e) then SplitCost(q, e) else 0.0
  }

  ghost function ClassCount(q: Query, key: Key, c: OutcomeClass): (n: nat) {
    CountBy(q.outcomes, o => InCell(q, key, o) && ClassOf(o) == c)
  }

  ghost function ConfirmedCount(q: Query, key: Key): (n: nat) {
    CountBy(q.outcomes, o => InCell(q, key, o) && o.signal == OutcomeConfirmed)
  }

  ghost function NumeratorOf(q: Query, key: Key): (v: real) {
    match q.plan.numerator
    case TotalCostUsd => SumBy(q.events, e => Charge(q, key, e))
    case AttemptCount => CountBy(q.events, e => InNumerator(q, key, e)) as real
    case _ => ConfirmedCount(q, key) as real
  }

  ghost function DenominatorOf(q: Query, key: Key): (v: nat) {
    match q.plan.denominator
    case VerifiedOutcomeCount => ClassCount(q, key, Verified)
    case OutcomeCount => ConfirmedCount(q, key)
    case _ => CountBy(q.events, e => EventInCell(q, key, e))
  }

  function RatioOf(numerator: real, denominator: nat): (v: Option<real>) {
    if denominator == 0 then None else Some(Quantize(numerator / denominator as real, 100.0))
  }

  /** A cell with no bound outcome is headlined at the least trusted tier. */
  function TierConfidence(tiers: multiset<BindingTier>): (c: RollupConfidence) {
    if tiers == multiset{} then RollupConfidence(Likely, map[Likely := 1]) else ConfidenceOf(tiers)
  }

  function CausalRank(c: CausalEvidence): (n: nat) {
    match c
    case Observational => 0
    case Holdout => 1
    case Randomized => 2
  }

  /** The weakest member's evidence; no members is no evidence. */
  function WeakestEvidence(outcomes: seq<OutcomeEvent>): (c: CausalEvidence) {
    if exists o :: o in outcomes && o.binding.causal == Observational then Observational
    else if exists o :: o in outcomes && o.binding.causal == Holdout then Holdout
    else if outcomes == [] then Observational
    else Randomized
  }

  datatype MetricCell = MetricCell(
    key: Key, numerator: real, denominator: nat, value: Option<real>, confidence: RollupConfidence,
    advisoryExcluded: nat, retractedExcluded: nat, sharedAttribution: nat, causal: CausalEvidence)

  ghost function CellOutcomes(q: Query, key: Key): (os: seq<OutcomeEvent>) {
    FilterBy(q.outcomes, o => InCell(q, key, o))
  }

  ghost function CellOf(q: Query, key: Key): (c: MetricCell) {
    MetricCell(
      key, NumeratorOf(q, key), DenominatorOf(q, key), RatioOf(NumeratorOf(q, key), DenominatorOf(q, key)),
      TierConfidence(TierTally(CellOutcomes(q, key))),
      ClassCount(q, key, Advisory), ClassCount(q, key, Retracted),
      CountBy(q.events, e => InNumerator(q, key, e) && Overlapping(q, e.runId)),
      WeakestEvidence(CellOutcomes(q, key)))
  }

  datatype MetricResult = MetricResult(cells: seq<MetricCell>, requiresReemit: bool)

  /** The report is one cell per group, in group order. */
  ghost predicate IsReport(q: Query, r: MetricResult) {
    && |r.cells| == |CellKeys(q)|
    && (forall i :: 0 <= i < |r.cells| ==> r.cells[i] == CellOf(q, CellKeys(q)[i]))
    && (r.requiresReemit <==> exists i :: 0 <= i < |r.cells| && r.cells[i].retractedExcluded > 0)
  }

  /** Only provider and model filters narrow the events; other fields are ignored. */
  predicate MatchesFilters(e: CostEvent, filters: seq<(Dimension, string)>) {
    forall f :: f in filters ==> (f.0 == Provider ==> e.provider == f.1) && (f.0 == Model ==> e.model == f.1)
  }
}
