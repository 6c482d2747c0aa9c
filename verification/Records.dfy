/** The records that capture, attribution and metrics exchange. */
module Records {
  import opened Confidence
  import opened Alias

  type TenantId = string
  type RunId = string

  datatype SignalClass = ActionAttempted | OutcomeConfirmed | OutcomeRetracted

  datatype CausalEvidence = Observational | Holdout | Randomized

  /** One HTTP attempt's cost; the cost is unknown when billing is uncertain. */
  datatype CostEvent = CostEvent(
    tenant: TenantId, runId: RunId, attemptId: string,
    provider: string, model: string, cost: Option<real>, occurredAt: int)

  datatype OutcomeBinding = OutcomeBinding(
    runId: Option<RunId>, tier: Option<BindingTier>, boundBy: Option<string>, causal: CausalEvidence)

  datatype OutcomeEvent = OutcomeEvent(
    tenant: TenantId, id: string, name: string, signal: SignalClass, occurredAt: int,
    binding: OutcomeBinding, entityKeys: set<EntityKey>, correlationId: Option<string>, source: string)

  datatype Run = Run(
    tenant: TenantId, id: RunId, agentName: Option<string>, startedAt: int, entityKeys: set<EntityKey>)
}
