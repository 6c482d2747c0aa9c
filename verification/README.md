# valuemaxx in Dafny

A Dafny model of the parts of valuemaxx that decide money, evidence and delivery: how a metric
report is computed from cost events and outcomes, how shared cost is split, how spans and outcomes
are ingested and bound, how a provider's stream is captured, how a model switch is judged, and the
small structures those rest on (alias closure, copy-on-write injection, baggage headers, the
bounded emitter). The main results are for-all claims over inputs, runs or reachable states; where a
promise fails there is an input that shows it and the exact condition under which it holds.

`dafny verify dfyconfig.toml` checks the whole project.

## How the model is laid out

| modules | component |
|---|---|
| `Metrics`, `MetricExecutor`, `CostGrouping`, `OutcomeColumns`, `MetricHonesty`, `ReportOrder`, `ReportMeaning` | the metric executor: `Metrics` says declaratively what a report is, `MetricExecutor` holds the loops and is proved to compute it, the rest proves what every report satisfies |
| `Allocator`, `Allocation` | the largest-remainder split and the three-tier allocation of one run |
| `Confidence`, `Alias`, `Records` | tiers and rollup confidence, entity aliases, shared records |
| `Ingest`, `IngestService`, `IngestOrder`, `IngestBatches`, `IngestClock`, `IngestAgents`, `IngestReports`, `BindMeaning` | the ingest and binding protocol: the step function, the in-place stores that implement it, and what order, batching, redelivery, rejected spans and the ingest clock can and cannot change |
| `Accumulators`, `StreamCapture`, `TokenMeaning` | stream accumulators, the chunked line splitter, and what a whole stream's tokens are |
| `Wilson`, `Search`, `Switch`, `SwitchMeaning`, `Percentiles` | eval statistics and decisions |
| `Injection`, `Baggage`, `MemberScan`, `BaggageReaders`, `BaggageWire`, `PercentEncoding`, `Emission` | run-id transport and the emitter |
| `Numeric`, `Folds`, `Text` | sums and banker's rounding, folds over sequences, string operations |

## Promises of the code's own documentation that do not hold as stated

Each is kept as the code has it, with a witness or an exact condition.

- "Columns reconcile": shares count outcomes, not names, so a run with two outcomes of one name is
  under-charged (`OutcomeColumns.RepeatedNameUnderReports`); the columns reach the producing spend
  exactly when no run with spend repeats a name (`ColumnsReconcile`). A group with no producing run
  repeats the whole window (`FullTableIsColumnsPlusFallbacks`, `TableReconcilesIff`).
- "The parts sum exactly to the total": exactly when the total is a whole number of quanta
  (`Allocator.Allocate`).
- Arrival order never matters: it does when baggage and echo disagree, because registration prefers
  the echo and the cascade tries baggage first (`IngestOrder.ConflictingSignalsDependOnOrder`); a
  call's binding is independent of earlier deliveries exactly when the signal tried first is the one
  registered (`StateFreeIffDecisive`).
- At-least-once delivery is deduplicated: the event is stamped, and priced unless it carries its own
  cost, by the clock at ingest, so a redelivered span can leave a report window
  (`IngestClock.RedeliveryMovesEvent`, `IngestReports.RedeliveryChangesReport`). What a window reads
  is independent of delivery exactly when all readings of each attempt agree about it
  (`IngestClock.ViewsStableIff`, and `ViewsStableBetweenIff` for a clock that runs forward).
- A batch is persisted whatever its order: a span that fails to decode abandons the rest of its batch,
  so one order stores a good span and the other loses it (`IngestBatches.RejectedSpanLosesTheRest`). The
  stored attempts are independent of order and batching exactly when no tenant hands in both a
  rejected span and a decodable attempt (`KeysStableIff`).
- Run rows are enriched idempotently: they are last-writer-wins
  (`IngestAgents.AgentRowsDependOnOrder`); a run's agent is independent of delivery exactly when its
  attempts carry one agent (`AgentStableIff`).
- "A stream that ended early still yields what we saw": a read that throws skips the code that would
  flag it, and nothing is reported (`StreamCapture.CutOffStreamIsLost`); usage survives exactly when
  the stream ends cleanly or carried none (`UsageSurvivesIff`).
- The gateway's two Gemini readers agree only without thinking tokens (`GeminiReadersAgreeIff`), and
  the two languages' partial flags differ on one kind of OpenAI stream (`PartialFlagsAgreeIff`).
- "Sibling values are shared by reference": an array on the injection path is replaced by an empty
  object and its elements are no longer reachable (`Injection.DivergentReads`).
- The baggage writers and readers agree on the encoding: the backend reader does not undo the
  gateway writer's percent escapes (`BaggageReaders.BackendReadsEncoded`); a member spelled with a
  space before `=` shadows every run id in the gateway reader (`BaggageWire.ShadowWins`, and exactly
  when by `BaggageReaders.GatewayReadsIff`); and each reader trims its own language's whitespace, which
  differs (`SpacesDifferIff`, `EdgeCharacters`).
- A reported saving is less spend: not for a negative incumbent spend, where it means more
  (`Switch.CheaperMeansLessSpend`); and from 200 dollars per outcome a one-cent saving is rounded away
  (`OneCentIsLostAbove`).
- Unknown filter fields never match: the code ignores them (`MetricHonesty.AgentFilterIsIgnored`),
  which selects the documented events exactly when every filter names provider or model, or no event
  passes those (`FiltersAsDocumentedIff`).

## Model

| member | source | states |
|---|---|---|
| `Allocator.Allocate` | packages/allocation/src/valuemaxx/allocation/_allocator.py:38-86 | with a non-zero weight sum W: every part times W is less than W away from total times its weight; the parts sum to the total exactly iff it is a whole number of quanta (else within half a quantum); no integer vector with the same sum is closer in squared distance to total times weight over W; the moved keys are an initial segment of the remainder order; of equal weights a later one never gets less; empty and zero-weight inputs as the code returns or raises |
| `Allocator.BalancedIsOptimal` | packages/allocation/src/valuemaxx/allocation/_allocator.py:65-86 | leftovers at most one quantum apart make a split least-squares optimal among all integer vectors of its sum |
| `Allocator.RankedAdjustmentUnique` | packages/allocation/src/valuemaxx/allocation/_allocator.py:75-86 | remainder order with its tie-break leaves one possible split per sum |
| `Allocator.ResidueFitsInOneRound` | packages/allocation/src/valuemaxx/allocation/_allocator.py:70-85 | the residue is at most the number of keys, so the loop visits no key twice |
| `Allocator.SortKeys` | packages/allocation/src/valuemaxx/allocation/_allocator.py:77-81 | the order holds every key once, by remainder and then position, both reversed when handing out upwards |
| `Allocator.HandOut` | packages/allocation/src/valuemaxx/allocation/_allocator.py:82-86 | the loop moves exactly the first keys of the order by one quantum and the sum by the steps |
| `Allocator.NonNegativeParts` | packages/allocation/src/valuemaxx/allocation/_allocator.py:65-86 | non-negative weights and total give non-negative parts, although the loop may subtract |
| `Allocator.QuotaIsProportional` | packages/allocation/src/valuemaxx/allocation/_allocator.py:65 | staying within one quantum of the exact shares is staying within W of total times weight, for weights of either sign |
| `Allocator.OptimalIsClosest` | packages/allocation/src/valuemaxx/allocation/_allocator.py:65-86 | least-squares optimality over the exact shares is optimality over the weights themselves |
| `Allocation.DirectLines` | packages/allocation/src/valuemaxx/allocation/tier1.py:43-80 | one measured line per known cost, in order; the total is their sum; every event is a line or counted unmeasured |
| `Allocation.Tier2Lines` | packages/allocation/src/valuemaxx/allocation/tier2.py:38-76 | fails exactly without an allocation key or with a non-zero cost over zero weight; otherwise one line per consumer, proportional to its weight to within one quantum, summing to the split's target; all zero over zero weight |
| `Allocation.Tier3Lines` | packages/allocation/src/valuemaxx/allocation/tier3.py:46-80 | in-unit and idle totals are those of the inputs, and the quarantined lines add up to both |
| `Allocation.LineConfidence` | packages/allocation/src/valuemaxx/allocation/rollup.py:53-65 | a valid confidence headlined by the weakest tier any line carries |
| `Allocation.BuildRollup` | packages/allocation/src/valuemaxx/allocation/rollup.py:68-125 | reconciled and estimated parts, their lines, and the unallocated percentage they leave |
| `Allocation.AllocateRun` | packages/allocation/src/valuemaxx/allocation/service.py:43-81 | fails exactly when some shared cost cannot be split; else all lines sum to measured + proportional + fixed + idle cost, the headline is the weakest tier with a line, no allocated line reads as measured |
| `Allocation.ProportionalIsConserved` | packages/allocation/src/valuemaxx/allocation/service.py:66-73 | whole-quantum shared costs with consumers are passed on in full |
| `Allocation.IdleNeverAccounted` | packages/allocation/src/valuemaxx/allocation/rollup.py:92-117 | removing every idle input leaves the accounted amount, and so the percentage, unchanged |
| `Allocation.PctUnallocatedRange` | packages/allocation/src/valuemaxx/allocation/rollup.py:100-117 | the rounded percentage stays in 0..100, never rises when more is accounted for, and is 0 once the estimate is covered |
| `Allocation.PctUnallocatedMeans` | packages/allocation/src/valuemaxx/allocation/rollup.py:100-117 | over a positive estimate the percentage is the share of it that is not accounted for, to ten decimal places |
| `Confidence.Propagate` | packages/core/src/valuemaxx/core/rollup.py:56-65 | the distribution counts every member, the headline is the least trusted one, empty input is an error, the validator holds |
| `Confidence.MergeReports` | packages/core/src/valuemaxx/core/rollup.py:29-65 | a confidence over two collections together adds the counts and takes the weaker headline |
| `Confidence.HeadlineUnique` | packages/core/src/valuemaxx/core/rollup.py:39-54 | the validator leaves one possible headline per distribution |
| `Alias.ResolveAliases` | packages/core/src/valuemaxx/core/alias.py:45-62 | terminates on every edge list and returns exactly the connected component of the key |
| `Alias.Adjacency` | packages/core/src/valuemaxx/core/alias.py:65-71 | neighbours are exactly the keys linked in either direction |
| `Alias.SameEntitySymmetric` | packages/core/src/valuemaxx/core/alias.py:45-71 | the resolved relation is symmetric |
| `Alias.SameEntityTransitive` | packages/core/src/valuemaxx/core/alias.py:45-71 | the resolved relation is transitive |
| `Alias.SameEntityInsensitive` | packages/core/src/valuemaxx/core/alias.py:45-71 | only the undirected edges matter, not order, direction or duplicates |
| `Alias.NewAliasMergesTwoClasses` | packages/core/src/valuemaxx/core/alias.py:45-71 | a new edge joins exactly the two classes of its ends (iff) |
| `MetricHonesty.EntityRunsGrow` | packages/metrics/src/valuemaxx/metrics/executor.py:443-464 | the runs reachable from an outcome's entities only grow with more aliases |
| `MetricExecutor.RunPlan` | packages/metrics/src/valuemaxx/metrics/executor.py:163-218 | the loops compute the declarative report: one cell per group in order, re-emission flag included |
| `MetricExecutor.ResolveAgents` | packages/metrics/src/valuemaxx/metrics/executor.py:220-242 | one lookup per distinct run gives every event its run's agent, "unknown" when there is none |
| `MetricExecutor.CostGroupKey` | packages/metrics/src/valuemaxx/metrics/executor.py:104-129 | the key an event has under the grouping, read through the resolved agents |
| `MetricExecutor.GroupKeys` | packages/metrics/src/valuemaxx/metrics/executor.py:244-267 | the distinct non-empty keys of events and outcomes in first-seen order, or the one empty key |
| `MetricExecutor.BuildCell` | packages/metrics/src/valuemaxx/metrics/executor.py:269-312 | the cell equals its declarative definition: numerator, denominator, ratio, confidence, exclusions, evidence |
| `ReportMeaning.ValueIsTheQuotient` | packages/metrics/src/valuemaxx/metrics/executor.py:511-515 | in every report a cell has a value iff its denominator is not zero; it is then its numerator over its denominator in whole cents, at most half a cent off, ties to the even cent |
| `ReportMeaning.PlainNumerator` | packages/metrics/src/valuemaxx/metrics/executor.py:330-375 | for every plan other than cost per verified outcome the numerator is the cell's whole spend, attempts or confirmed outcomes, and no attribution is shared |
| `ReportMeaning.UnboundCellIsLikely` | packages/metrics/src/valuemaxx/metrics/executor.py:518-530 | a cell no bound outcome reaches is headlined likely, counted once |
| `ReportMeaning.EventKeyMeans` | packages/metrics/src/valuemaxx/metrics/executor.py:104-129 | the key of an event under each dimension is that field of the event, of its run's row, or "unknown" |
| `ReportMeaning.FilterMeans` | packages/metrics/src/valuemaxx/metrics/executor.py:94-101 | a provider filter tests the provider, a model filter the model, any other nothing |
| `MetricExecutor.NumeratorEvents` | packages/metrics/src/valuemaxx/metrics/executor.py:330-375 | exactly the cell's events on producing runs, or all of them when there is none |
| `MetricExecutor.ProducingRuns` | packages/metrics/src/valuemaxx/metrics/executor.py:358-372 | exactly the runs some billing-grade outcome of the cell names, directly or through its entities |
| `MetricExecutor.AttributionShares` | packages/metrics/src/valuemaxx/metrics/executor.py:378-408 | 1/n for every run with n > 1 billing-grade outcomes and nothing else |
| `MetricExecutor.OutcomesPerRun` | packages/metrics/src/valuemaxx/metrics/executor.py:411-440 | counts billing-grade outcomes per run, not distinct names |
| `MetricExecutor.RunsForEntities` | packages/metrics/src/valuemaxx/metrics/executor.py:443-464 | exactly the runs that carry a key of the same entity as an outcome's key |
| `MetricExecutor.NumeratorValue` | packages/metrics/src/valuemaxx/metrics/executor.py:467-489 | each measure's value as its sum or count over the cell |
| `MetricExecutor.DenominatorValue` | packages/metrics/src/valuemaxx/metrics/executor.py:491-509 | each measure's denominator as its count over the cell |
| `MetricExecutor.DenominatorOutcomes` | packages/metrics/src/valuemaxx/metrics/propagation.py:109-154 | the four counters are the class counts and the tally the tiers of all but attempts |
| `CostGrouping.MatchIsEquality` | packages/metrics/src/valuemaxx/metrics/executor.py:315-327 | under cost dimensions a key matches a cell iff it is the cell's key, so each event is in one cell |
| `CostGrouping.CellKeyElements` | packages/metrics/src/valuemaxx/metrics/executor.py:244-267 | groups are distinct, never empty, cover every record and come only from records |
| `CostGrouping.CoarseningMergesCells` | packages/metrics/src/valuemaxx/metrics/executor.py:269-375 | dropping grouping dimensions adds up exactly the finer cells that merge, even after narrowing to producing runs |
| `CostGrouping.ColumnsSumToUngrouped` | packages/metrics/src/valuemaxx/metrics/executor.py:269-375 | total-cost and attempt-count numerators sum over cells to the ungrouped numerator |
| `OutcomeColumns.CellsPerRun` | packages/metrics/src/valuemaxx/metrics/executor.py:330-375 | by outcome name a run is charged in as many cells as it has distinct names |
| `OutcomeColumns.EventAcrossColumns` | packages/metrics/src/valuemaxx/metrics/executor.py:378-440 | across the columns an event is charged its cost times names over outcomes |
| `OutcomeColumns.ColumnsCarry` | packages/metrics/src/valuemaxx/metrics/executor.py:330-489 | the columns with a producing run sum to exactly those charges |
| `OutcomeColumns.ColumnsReconcile` | packages/metrics/src/valuemaxx/metrics/executor.py:330-489 | with non-negative costs the columns never exceed the spend on producing runs, and equal it iff no run with spend repeats a name |
| `OutcomeColumns.RepeatedNameUnderReports` | packages/metrics/src/valuemaxx/metrics/executor.py:429-440 | a witness that they do not always equal it |
| `OutcomeColumns.FullTableIsColumnsPlusFallbacks` | packages/metrics/src/valuemaxx/metrics/executor.py:373-375 | each group without a producing run adds one whole window on top |
| `OutcomeColumns.TableReconcilesIff` | packages/metrics/src/valuemaxx/metrics/executor.py:373-375 | with distinct names the full table reconciles iff every group has a producing run or nothing was spent |
| `MetricHonesty.ClassesPartition` | packages/metrics/src/valuemaxx/metrics/propagation.py:109-154 | verified, advisory, attempted and retracted counts partition a cell's outcomes |
| `MetricHonesty.RetractionMovesOne` | packages/metrics/src/valuemaxx/metrics/propagation.py:109-154 | retracting a billing-grade outcome moves exactly one from verified to retracted in each cell holding it, and changes no other count |
| `MetricHonesty.RetractionKeepsTiers` | packages/metrics/src/valuemaxx/metrics/propagation.py:109-154 | retraction leaves the tier distribution of every cell unchanged |
| `MetricHonesty.CellKeysSurviveRetraction` | packages/metrics/src/valuemaxx/metrics/executor.py:244-267 | retraction changes no group |
| `MetricHonesty.LastRetractionReportsTheWindow` | packages/metrics/src/valuemaxx/metrics/executor.py:373-375 | retracting a name's last billing-grade outcome removes its producers: the cell's numerator becomes the whole window and its value undefined |
| `MetricHonesty.FiltersAsDocumentedIff` | packages/metrics/src/valuemaxx/metrics/executor.py:94-101 | the filters select the documented events iff each names provider or model, or none matches |
| `MetricHonesty.AgentFilterIsIgnored` | packages/metrics/src/valuemaxx/metrics/executor.py:94-101 | a witness family: a filter on the agent selects every event, against the documented rule |
| `MetricHonesty.ReemitIffRetracted` | packages/metrics/src/valuemaxx/metrics/executor.py:195-218 | a report asks for re-emission iff some outcome is retracted, whatever the grouping |
| `MetricHonesty.MergedCells` | packages/metrics/src/valuemaxx/metrics/executor.py:518-530 | merging cells with bound outcomes adds distributions and takes the weaker minimum tier |
| `MetricHonesty.HeadlineNeverRaised` | packages/metrics/src/valuemaxx/metrics/executor.py:518-530 | the confidence over all outcomes is never headlined above a bound cell's |
| `MetricHonesty.NamedCountsAddUp` | packages/metrics/src/valuemaxx/metrics/executor.py:269-312 | grouped by outcome name, for every measure, the counts of each class add up to the count over all outcomes |
| `ReportOrder.ReportsAgree` | packages/metrics/src/valuemaxx/metrics/executor.py:183-218 | a report has the same cells for any listing order of the same records and any event times; run tables must agree on grouped agents, and be equal with equal aliases if a billing-grade outcome names only an entity |
| `Ingest.BindCoincidence` | packages/attribution/src/valuemaxx/attribution/cascade.py:110-194 | at each bind, review required, not billing-grade and enqueued by this step coincide |
| `Ingest.BindIsSafe` | packages/attribution/src/valuemaxx/attribution/capabilities.py:118-143 | a bind keeps the safety invariant, for any resolvers |
| `Ingest.BatchIsSafe` | packages/capture/src/valuemaxx/capture/capabilities.py:297-340 | a span batch, cut short or not, keeps it and forgets no run or review item |
| `Ingest.ReachableStatesAreSafe` | packages/attribution/src/valuemaxx/attribution/capabilities.py:254-323 | in every reachable state a billing-grade outcome names a run in its tenant's table and every other outcome has a pending review item |
| `Ingest.TenantIsolation` | packages/attribution/src/valuemaxx/attribution/capabilities.py:254-323 | a delivery for one tenant changes nothing another tenant can read |
| `IngestService.Backend.IngestAttributeMaps` | packages/capture/src/valuemaxx/capture/capabilities.py:297-340 | the loop over the stores is the batch step, each event stamped and priced by the clock at ingest; it counts the attempts, stops at a rejected span and keeps the stores safe |
| `IngestOrder.SpanMakesRunBindable` | packages/capture/src/valuemaxx/capture/capabilities.py:242-288 | after a span is ingested any later call whose first signal names its run binds to it at that signal's tier, and no other run's row changed |
| `IngestOrder.FirstSightBinds` | packages/attribution/src/valuemaxx/attribution/capabilities.py:254-298 | in every state, even before any span, a decisive call binds billing-grade to the run it asserts, adds at most that row and overwrites none |
| `IngestService.Backend.BindDeterministic` | packages/attribution/src/valuemaxx/attribution/cascade.py:110-135 | binds by the first signal whose run the table holds |
| `IngestService.Backend.BindAdvisoryTiers` | packages/attribution/src/valuemaxx/attribution/cascade.py:137-194 | for any answers of the two resolvers: a match names a run iff it is not ambiguous, the first of the highest score at its own tier, and carries all candidates and the resolver's name; the second resolver counts only if the first found nothing; without either the result is unbound; every result is enqueued; a foreign tier is an error |
| `IngestService.Backend.BindOutcome` | packages/attribution/src/valuemaxx/attribution/capabilities.py:118-143 | the handler on the stores is the bind step and keeps them safe; the outcome is stored under its idempotency key with the decision's run, tier and resolver; without a known signal the decision follows the resolvers' answers |
| `BindMeaning.AdvisoryDecision` | packages/attribution/src/valuemaxx/attribution/cascade.py:137-194 | the cascade's decision without a known signal, in the terms of the resolvers' answers |
| `BindMeaning.DeterministicDecision` | packages/attribution/src/valuemaxx/attribution/cascade.py:110-135 | body or ambient run first at exact, then non-blank baggage at exact, then the echo at deterministic; ids the tenant's table lacks are passed over |
| `BindMeaning.RegisteredRow` | packages/attribution/src/valuemaxx/attribution/capabilities.py:244-298 | first sight writes one row, for the body's non-empty id, else the echo, else non-empty baggage, with the outcome's time and keys and no agent, unless the row exists |
| `BindMeaning.OneSpan` | packages/capture/src/valuemaxx/capture/capabilities.py:297-357 | a batch of one span: a rollup (no provider named) and a rejected span leave no trace; an attempt stores one event with its inline or priced cost and, if it names a run, that run's row |
| `IngestOrder.StateFreeIffDecisive` | packages/attribution/src/valuemaxx/attribution/cascade.py:74-135 | a call with a deterministic signal binds independently of earlier deliveries iff the first signal tried is the registered run id |
| `IngestOrder.ConflictingSignalsDependOnOrder` | packages/attribution/src/valuemaxx/attribution/capabilities.py:244-251 | a witness that conflicting baggage and echo bind by arrival order |
| `IngestAgents.AgentRowsDependOnOrder` | packages/capture/src/valuemaxx/capture/capabilities.py:242-288 | a witness that the agent a run reads under depends on arrival order |
| `IngestAgents.AgentStableIff` | packages/capture/src/valuemaxx/capture/capabilities.py:242-288 | over all deliveries that ingest the same spans a run reads under one agent iff its ingested attempts carry one agent |
| `IngestOrder.RunMirrorsCosts` | packages/capture/src/valuemaxx/capture/capabilities.py:297-340 | after any deliveries every stored event was made from an ingested arrival of its attempt and every ingested attempt is stored; ingested means before the first rejected span of its batch |
| `IngestOrder.RunMirrorsCalls` | packages/attribution/src/valuemaxx/attribution/capabilities.py:301-323 | after decisive calls the stored outcomes are exactly the settled calls |
| `IngestBatches.CutChangesNothing` | packages/capture/src/valuemaxx/capture/capabilities.py:297-340 | cutting every batch down to the attempts before its first rejected span ends in the same state |
| `IngestBatches.RejectedSpanLosesTheRest` | packages/capture/src/valuemaxx/capture/capabilities.py:322-334 | a witness: one batch of a good and a rejected span stores the good one in one order and nothing in the other |
| `IngestBatches.KeysStableIff` | packages/capture/src/valuemaxx/capture/capabilities.py:297-340 | over all orders and batchings of the same arrivals the same attempts are stored iff no tenant hands in both a rejected span and a decodable attempt |
| `IngestBatches.UnmixedSameArrivals` | packages/capture/src/valuemaxx/capture/capabilities.py:297-340 | and then the same arrivals are ingested, so the order results apply |
| `IngestOrder.DeliveryOrderIrrelevant` | packages/attribution/src/valuemaxx/attribution/capabilities.py:254-323 | any two delivery sequences that ingest the same spans and deliver the same decisive calls, in any order, batching and multiplicity and at any times, end with the same stored outcomes and the same cost store up to price and time; with the same costs if no attempt's price moved between its readings |
| `IngestClock.SteadyIff` | packages/capture/src/valuemaxx/capture/otlp/otlp_ingest.py:139-174 | two arrivals of one attempt read alike in a window iff they fall on the same side of it and, inside, cost the same |
| `IngestClock.ViewsAgree` | packages/capture/src/valuemaxx/capture/otlp/otlp_ingest.py:139-174 | deliveries of the same contents read the same in a window all readings agree about |
| `IngestClock.ViewsStableIff` | packages/capture/src/valuemaxx/capture/otlp/otlp_ingest.py:139-174 | what a window reads is the same however the same arrivals, each at its own time, are ordered, batched or repeated iff the readings of every attempt agree about the window |
| `IngestClock.ViewsStableBetweenIff` | packages/capture/src/valuemaxx/capture/otlp/otlp_ingest.py:139-174 | with a clock that runs forward between two times, what a window reads is the same for all deliveries of the same contents iff every ingested span reads the same at all those times |
| `IngestClock.RedeliveryMovesEvent` | packages/capture/src/valuemaxx/capture/otlp/otlp_ingest.py:174 | a witness: a redelivered span leaves the window it was in |
| `IngestReports.RedeliveryChangesReport` | packages/metrics/src/valuemaxx/metrics/executor.py:183-218 | at that witness every report of the window's attempt count shows one before the redelivery and zero after it, and there is such a report |
| `IngestReports.SameReportsInAnyOrder` | packages/metrics/src/valuemaxx/metrics/executor.py:163-218 | deliveries that ingest the same contents report the same set of cells over a window all readings agree about, for every plan; one grouped by agent needs one agent per run |
| `Accumulators.AnthropicTerminal` | sdks/typescript/src/terminal.ts:49-112 | the state is a function of the last start, the last output block and the thinking count |
| `Accumulators.OpenAiTerminal` | sdks/typescript/src/terminal.ts:148-192 | the state is a function of the last usage block |
| `Accumulators.GeminiTerminal` | sdks/typescript/src/terminal.ts:232-272 | the state is a function of the last usage metadata |
| `TokenMeaning.OpenAiTokens` | sdks/typescript/src/terminal.ts:148-192 | the tokens of a whole stream off its last usage record: output is completion_tokens, uncached and cached input add up to prompt_tokens, cached is the smaller of cached_tokens and that, nothing else |
| `TokenMeaning.GeminiTokens` | sdks/typescript/src/terminal.ts:232-272 | the same off the last usage metadata: prompt, cached part, thoughts as reasoning and as output beside the candidates |
| `TokenMeaning.AnthropicInput` | sdks/typescript/src/terminal.ts:74-85 | input, cache-read and both cache-write counts are those of the last start |
| `TokenMeaning.AnthropicOutputTokens` | sdks/typescript/src/terminal.ts:87-112 | reasoning counts the thinking blocks; output is the last count a start or delta reported, raised to cover them |
| `TokenMeaning.NoUsageNoTokens` | sdks/typescript/src/terminal.ts:49-283 | a stream without usage has no tokens, but for Anthropic thinking blocks and output deltas |
| `TokenMeaning.CoercionMeans` | sdks/typescript/src/terminal.ts:39-47 | the count a field is read as: positive integers, in TypeScript also floats rounded down, zero otherwise |
| `TokenMeaning.FlagMeans` | sdks/typescript/src/terminal.ts:115-290 | a stream read to its end is flagged iff its usage never came, or in TypeScript was not asked for |
| `Accumulators.RepeatedUsageIsIdempotent` | sdks/typescript/src/terminal.ts:49-283 | observing the latest usage block again changes nothing, for all three machines |
| `Accumulators.LanguagesAgreeIff` | packages/capture/src/valuemaxx/capture/terminal.py:53-180 | the Python and TypeScript machines end in equal states iff their coercions agree on the fields kept at the end: those of the last start, last output block or last usage block |
| `Accumulators.IntegerUsageAgrees` | packages/capture/src/valuemaxx/capture/terminal.py:53-180 | with no float among the kept fields both languages give equal tokens, whatever else the events carry |
| `Accumulators.CoercionsAgreeIff` | packages/capture/src/valuemaxx/capture/terminal.py:44-50 | the two coercions differ exactly on floats that truncate to a positive count |
| `Accumulators.PartialFlagsAgreeIff` | packages/capture/src/valuemaxx/capture/terminal.py:171-180 | the partial flags differ exactly on a clean OpenAI stream that reported usage unasked |
| `Accumulators.GeminiReadersAgreeIff` | gateway/src/capture.ts:142-161 | the non-streaming reader agrees with the accumulator iff no thoughts and in-range counts |
| `StreamCapture.ChunksDoNotMatter` | gateway/src/capture.ts:82-106 | folding any chunks observes exactly the frames on the text's newline-terminated lines, in order, and carries its remainder |
| `StreamCapture.SameTextSameCapture` | gateway/src/capture.ts:82-106 | two cuts of one text leave equal accumulator and carry |
| `StreamCapture.LinesUnique` | gateway/src/capture.ts:87-90 | lines and remainder are the only cut of a text into terminated lines and a rest |
| `StreamCapture.LinesCover` | gateway/src/capture.ts:87-90 | and they cut every text |
| `StreamCapture.FoldSseChunk` | gateway/src/capture.ts:82-106 | the loop observes the chunk's frames into the accumulator and returns the partial line |
| `StreamCapture.ReadStreaming` | gateway/src/index.ts:288-313 | an observation is returned iff the stream ended cleanly; its tokens are those of the whole text, satisfy the token invariants, and its flag is the uncancelled accumulator's own |
| `TokenMeaning.ReadReports` | gateway/src/index.ts:288-313 | a clean read reports the tokens and the flag of the frames of the text its chunks spell |
| `StreamCapture.PayloadIff` | gateway/src/capture.ts:91-95 | a line carries a payload iff it is `data:` and that visible text with whitespace around either, and the text is not the terminator |
| `StreamCapture.UsageSurvivesIff` | gateway/src/index.ts:296-313 | the usage seen is the usage reported iff the stream ended cleanly or carried none |
| `StreamCapture.CutOffStreamIsLost` | gateway/src/index.ts:296-313 | for every parser and every data line whose payload parses to an event with usage: a stream that delivers the line and then fails reports none of it |
| `Wilson.WilsonFormulaIsSound` | packages/eval/src/valuemaxx/eval/stats.py:67-75 | Wilson's formula surrounds every rate (proper, inside [0, 1], contains it, touches an end only at rates 0 and 1) and mirrors under counting failures |
| `Wilson.WilsonContains` | packages/eval/src/valuemaxx/eval/stats.py:46-75 | for every formula that surrounds: errors exactly off 0 <= s <= n, n >= 1; else the unclamped interval is returned, so clamping changes nothing, and it contains s/n |
| `Wilson.RawIntervalContains` | packages/eval/src/valuemaxx/eval/stats.py:67-75 | the containment for one rate and sample size, by the interval's algebra |
| `Wilson.WilsonFormulaSolvesScore` | packages/eval/src/valuemaxx/eval/stats.py:67-75 | both ends x of the formula's interval solve the score equation n (p - x)^2 = z^2 x (1 - x) of their rate p and size n, for every square root |
| `Wilson.WilsonMirror` | packages/eval/src/valuemaxx/eval/stats.py:46-75 | counting failures mirrors the interval |
| `Search.QualifiesIffBeats` | packages/eval/src/valuemaxx/eval/search.py:124-130 | parity gate plus separation is exactly a lower bound above the incumbent's upper bound |
| `Search.WinnerIsCheapestSeparated` | packages/eval/src/valuemaxx/eval/search.py:114-133 | the winner lies wholly above the incumbent, costs no more than any such candidate, at equal cost none has a name before its own in code-point order, and it is the first of its cost and name; None iff there is no such candidate, error exactly on malformed counts that are looked at |
| `Search.WilsonWinner` | packages/eval/src/valuemaxx/eval/search.py:114-133 | the same with Wilson's formula, for every square root |
| `Search.TextBeforeIsOrder` | packages/eval/src/valuemaxx/eval/search.py:133 | the key's string order is by the first differing code point, or a proper prefix |
| `Search.ParetoFrontier` | packages/eval/src/valuemaxx/eval/search.py:136-167 | one point per score in order, flagged iff some point has quality no lower, cost and latency no higher, and one of them strictly better |
| `Search.FrontierSuffices` | packages/eval/src/valuemaxx/eval/search.py:136-167 | a point is dominated iff an unflagged point dominates it |
| `Search.FrontierNonEmpty` | packages/eval/src/valuemaxx/eval/search.py:136-167 | a non-empty list leaves a point unflagged |
| `Search.DominanceIsStrictOrder` | packages/eval/src/valuemaxx/eval/search.py:159-167 | dominance is irreflexive, asymmetric and transitive |
| `Switch.CheaperIff` | packages/eval/src/valuemaxx/eval/optimization.py:152-167 | after both roundings a saving is reported iff the cent-rounded unit costs differ by more than one part in 20000 |
| `Switch.CheaperMeansLessSpend` | packages/eval/src/valuemaxx/eval/optimization.py:152-167 | a reported saving means strictly less unrounded spend iff the incumbent's spend is positive |
| `Switch.SmallUnitCostsShowEverySaving` | packages/eval/src/valuemaxx/eval/optimization.py:152-167 | below 200 dollars per outcome every whole-cent saving is reported |
| `Switch.OneCentIsLostAbove` | packages/eval/src/valuemaxx/eval/optimization.py:163-167 | from 200 dollars on a one-cent saving is not |
| `Switch.StandardErrorIsSound` | packages/eval/src/valuemaxx/eval/stats.py:228-229 | the standard error is never negative, fails exactly on a negative variance and is zero exactly when the variance is |
| `Switch.ProvenIffPowered` | packages/eval/src/valuemaxx/eval/stats.py:191-269 | the test proves non-inferiority iff both arms are non-empty, the standard error is not zero, both reach the required size, and it rejects; undecided iff no verdict; error iff the standard error fails |
| `Switch.EnoughIff` | packages/eval/src/valuemaxx/eval/stats.py:272-288 | an arm is large enough iff its size times the squared margin covers the demand; a wider margin never needs more |
| `Switch.SafeIff` | packages/eval/src/valuemaxx/eval/optimization.py:62-108 | safe_to_switch iff a reported saving and a complete, powered, rejecting experiment; randomized evidence and the required size likewise |
| `Switch.SafeToSwitchMeans` | packages/eval/src/valuemaxx/eval/optimization.py:62-108 | with non-negative spend a safe verdict means strictly less spend before rounding, positive outcomes, both arms at size, and a measured rate less than the margin below the incumbent's |
| `Switch.SafeSwitchMeans` | packages/eval/src/valuemaxx/eval/optimization.py:62-108 | the same with the source's standard error, for every square root |
| `SwitchMeaning.CostFields` | packages/eval/src/valuemaxx/eval/optimization.py:152-167 | both costs are the spend over the outcomes in whole cents, ties to even, absent without outcomes; the change is the difference in percent of the incumbent's cost in whole hundredths, absent over no cost or zero |
| `SwitchMeaning.TestMeans` | packages/eval/src/valuemaxx/eval/stats.py:191-269 | the reported rates are successes over trials, the size is the smaller arm's, the p-value is of the shifted difference in standard errors; it decides iff the error is not zero and the size suffices, and then at 0.05 |
| `SwitchMeaning.ExperimentFields` | packages/eval/src/valuemaxx/eval/optimization.py:62-149 | a test is reported iff all four counts are given, a required size iff it is undecided |
| `SwitchMeaning.ErrorMeans` | packages/eval/src/valuemaxx/eval/stats.py:229 | the squared standard error, cleared of fractions, is the two arms' variances |
| `SwitchMeaning.SampleSizeMeans` | packages/eval/src/valuemaxx/eval/stats.py:272-288 | the required size is the least whose product with the squared margin covers (z_0.95 + z_0.80)^2 2p(1 - p) |
| `Percentiles.QuantileMonotone` | packages/eval/src/valuemaxx/eval/stats.py:100-109 | quantiles are ordered, so p50 <= p95 <= p99 |
| `Percentiles.QuantileLocated` | packages/eval/src/valuemaxx/eval/stats.py:100-109 | a quantile lies between the samples around its rank |
| `Percentiles.QuantileIsLinear` | packages/eval/src/valuemaxx/eval/stats.py:100-109 | at rank k + part the quantile is (1 - part) of sample k plus part of sample k + 1 |
| `Injection.MergePath` | sdks/typescript/src/injection.ts:86-100 | writes to no existing object; the spine is new, each node its original's copy with the path field replaced, for graphs with sharing or cycles |
| `Injection.ShallowCopyNode` | sdks/typescript/src/injection.ts:102-108 | a new object with a plain object's own fields, else empty |
| `Injection.RunIdReads` | sdks/typescript/src/injection.ts:86-100 | the result reads the run id at the path |
| `Injection.SiblingKept` | sdks/typescript/src/injection.ts:86-108 | every field off the path keeps its value or reference, none appears or disappears |
| `Injection.DivergentReads` | sdks/typescript/src/injection.ts:86-108 | every path that parts from the injected one reads as before, except below an array on the spine, where it reads nothing |
| `Injection.InjectRunId` | sdks/typescript/src/injection.ts:64-73 | the argument a wrapped call receives, with and without an active run |
| `Baggage.WithRunIdMember` | sdks/typescript/src/baggage.ts:93-106 | the loop builds the other members in order plus the run-id member |
| `Baggage.MergeKeepsOthers` | sdks/typescript/src/baggage.ts:93-106 | splitting the merged header gives the other members in order and one stamped member last |
| `Baggage.KeptMeans` | sdks/typescript/src/baggage.ts:93-106 | the other members are exactly the trimmed pieces that are neither blank nor stamped with the key |
| `Baggage.RemergeIff` | sdks/typescript/src/baggage.ts:93-106 | a second merge replaces the first run id and nothing else iff no text after a comma in it became a member; so merging is idempotent without commas |
| `BaggageReaders.ParseBaggageRunId` | gateway/src/headers.ts:123-138 | the scan returns the first readable run-id member |
| `BaggageReaders.GatewayReadsMerged` | gateway/src/headers.ts:123-138 | for the reader's whitespace: a shadowing member wins; otherwise the id comes back verbatim iff non-empty, unpadded and free of comma, semicolon and percent |
| `BaggageReaders.ReadsIffShadows` | gateway/src/headers.ts:126-135 | of the members a merge keeps, the gateway reads exactly those that spell the key with whitespace before the equals sign and have a readable value |
| `BaggageReaders.GatewayReadsIff` | gateway/src/headers.ts:123-138 | over every header and id: with such a member the first one is read, whatever id was written; without, the id comes back iff plain |
| `BaggageWire.ShadowWins` | gateway/src/headers.ts:123-138 | a witness family: a header that is one member with one space before its equals sign and a plain value hides every id |
| `BaggageWire.EdgeCharacters` | gateway/src/headers.ts:128-135 | an id without delimiters or escapes comes back to each reader iff that reader's own language keeps its first and last character |
| `BaggageWire.DeployedReaders` | sdks/typescript/src/run_id_wire.json:2 | both readers at the deployed key, over every header and every id |
| `BaggageWire.DeployedEncoding` | gateway/src/report.ts:107-111 | the gateway's encoded header at the deployed key: its own reader decodes every non-empty id, the backend returns the encoded text |
| `BaggageWire.SpacesDifferIff` | packages/attribution/src/valuemaxx/attribution/binding/baggage_header.py:17-36 | JavaScript and Python whitespace differ exactly on U+FEFF, U+001C to U+001F and U+0085 |
| `BaggageReaders.GatewayReadsEncoded` | gateway/src/report.ts:107-111 | every non-empty id survives the percent-encoding writer and the gateway reader |
| `PercentEncoding.EncodeRoundTrip` | gateway/src/report.ts:107-111 | decoding undoes encoding on every string (section 2.1 of RFC 3986 over UTF-8) |
| `PercentEncoding.EitherCase` | gateway/src/headers.ts:135 | an escape reads as its octet with digits of either case |
| `BaggageReaders.ParseBaggageHeader` | packages/attribution/src/valuemaxx/attribution/binding/baggage_header.py:17-36 | the loop builds the dictionary in which the last member wins |
| `BaggageReaders.KeysAreVisible` | packages/attribution/src/valuemaxx/attribution/binding/baggage_header.py:26-35 | no key of the dictionary is blank, and keys and values are trimmed |
| `BaggageReaders.BackendReadsMerged` | packages/attribution/src/valuemaxx/attribution/binding/baggage_header.py:17-36 | nothing shadows the merged id; it comes back iff it has no comma and no edge whitespace of the reader's language, whatever the writer trims |
| `BaggageReaders.BackendReadsEncoded` | packages/attribution/src/valuemaxx/attribution/binding/baggage_header.py:17-36 | of the gateway's header it returns the encoded id, equal to the id iff nothing needed encoding |
| `Emission.Emitter.Enqueue` | packages/capture/src/valuemaxx/capture/emit.py:65-74 | appends, or drops and counts when full |
| `Emission.Emitter.Drain` | packages/capture/src/valuemaxx/capture/emit.py:76-98 | for every failure pattern persists exactly the successful writes in order, counts the rest, and ends with an empty queue |
| `Emission.EveryEventAccounted` | packages/capture/src/valuemaxx/capture/emit.py:65-98 | over every interleaving: calls = queued + dropped + persisted, the queue stays bounded, persisted and queued events keep the offer order, and nothing is dropped iff they are all of them |

## Left out

- Python's 28-digit Decimal context and all float rounding: amounts are exact reals, allocator parts whole quanta.
- Weights reach `Allocator.Allocate` as a sequence in dictionary order; the type checks on Decimal are not modelled.
- Wilson.WilsonFormulaIsSound: the square root is a parameter with its defining equation, not a float power; `Wilson` and `Search` then take the interval formula as a parameter known to surround.
- Switch.SafeToSwitchMeans: the normal CDF and quantile are parameters (monotone, 1/2 at zero), not `erf` or the rational approximation; so is the standard error, of which `StandardError` is the source's formula.
- Percentiles.QuantileMonotone: takes the samples already sorted; the sort itself is a library call.
- Resolvers T4 and T5 are arbitrary functions of the run table and the outcome; only their own-tier check is modelled, time windows and scores inside them are not.
- Ingest.ReachableStatesAreSafe: the outcome store is keyed by the idempotency key of the repository interface, not by a database's conflict target; a runtime without stores wired, replay samples and the single-span path are not modelled.
- Spans reach `Ingest` with their attributes decoded to a payload; attribute parsing is not modelled, the price book is a parameter, and the clock readings come with each arrival.
- StreamCapture.FoldSseChunk: `JSON.parse` is a parameter; multi-line `data:` fields and other fields of section 9.2.5 of the WHATWG HTML Living Standard are ignored as in the code.
- Accumulators.LanguagesAgreeIff: provider, model and timing fields of an observation are not modelled.
- `mergeBaggage`'s copy of the headers object is the same copy-on-write walk as `Injection.MergePath` and is not repeated.
- PercentEncoding.EncodeRoundTrip: strings are Unicode scalar values, so lone surrogates, on which the encoder throws, cannot be written.
- Injection.MergePath: prototypes, getters, symbols and `__proto__` keys are not modelled; an object is its own enumerable properties.
- Emission.Emitter.Drain: logging is left out; a negative bound, which the constructor refuses, is excluded by type.
- `smoke_eval`, `confirmation_eval`, hysteresis and the fully loaded cost of an open model: a filter with a sort, and closed formulas.
- Report persistence, API and command-line projection, gateway proxying, instrumentation, onboarding, redaction and the eval funnel's orchestration: I/O and thin wrappers.
