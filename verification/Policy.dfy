/** Which tasks wait for a human approval before they may be claimed. */
module ApprovalPolicy {
  import opened Basics
  import opened BrokerTypes

  datatype CreateRequest = CreateRequest(
    id: Option<Id>,
    exchangeId: Option<Id>,
    parentTaskId: Option<Id>,
    proposalId: Option<Id>,
    intent: Intent,
    requester: Option<Party>,
    target: Option<Party>,
    assignedWorkerId: Option<Id>,
    workspaceNodeId: Option<Id>,
    policyContext: Option<PolicyContext>,
    artifactIds: set<Id>,
    brokerOfRecord: Option<Id>,
    teamId: Option<Id>,
    createdAt: Option<Timestamp>,
    payload: Id)

  const NO_CONTEXT := PolicyContext(None, None, None)

  predicate IsLiveImpact(r: CreateRequest) {
    var c := r.policyContext.GetOr(NO_CONTEXT);
    r.intent == PromoteToLive || r.intent == RollbackLive
    || c.liveImpact == Some(true)
    || c.targetEnvironment == Some(Live)
    || (r.intent == ApplyLocalChange && r.target.Some? && r.target.value.role == Some(LiveTrader))
  }

  predicate IsApprovalRequired(r: CreateRequest) {
    var c := r.policyContext.GetOr(NO_CONTEXT);
    r.intent == ApplyLocalChange || r.intent == PromoteToLive || r.intent == RollbackLive
    || c.requiresApproval == Some(true)
    || c.liveImpact == Some(true)
    || c.targetEnvironment == Some(Live)
    || IsLiveImpact(r)
  }

  /** Fills in the inferred fields that the request left open. */
  function NormalizeContext(r: CreateRequest): Option<PolicyContext> {
    var c := r.policyContext.GetOr(NO_CONTEXT);
    var c1 := if IsLiveImpact(r) && c.liveImpact.None? then c.(liveImpact := Some(true)) else c;
    var c2 := if IsLiveImpact(r) && c1.targetEnvironment.None? then c1.(targetEnvironment := Some(Live)) else c1;
    var c3 := if IsApprovalRequired(r) && c2.requiresApproval.None? then c2.(requiresApproval := Some(true)) else c2;
    if c3 == NO_CONTEXT then None else Some(c3)
  }

  predicate StoredFlag(context: Option<PolicyContext>) {
    context.Some? && context.value.requiresApproval == Some(true)
  }

  /** The stored context asks for approval exactly when the caller said so, or
      said nothing and the request is dangerous or has live impact. */
  lemma StoredFlagMeaning(r: CreateRequest)
    ensures var said := r.policyContext.GetOr(NO_CONTEXT).requiresApproval;
      StoredFlag(NormalizeContext(r)) <==> (if said.Some? then said.value else IsApprovalRequired(r))
  {
    assert IsLiveImpact(r) ==> IsApprovalRequired(r);
  }
}
