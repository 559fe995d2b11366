/** The records the broker keeps, as values: every store in the source is a map
    from an identifier to one of these, and `structuredClone` is value copy. */
module BrokerTypes {
  import opened Basics

  datatype BrokerError = BadRequest | PolicyDenied | NotFound | InvalidTransition | EvidenceMissing

  datatype Role = Hub | Operator | LiveTrader | Researcher | Analyst

  datatype Party = Party(id: Id, role: Option<Role>)

  /** `None` is a text that does not parse as a date. */
  type Timestamp = Option<int>

  // ----- tasks -----

  datatype TaskStatus = Blocked | Queued | Claimed | Running | Succeeded | Failed | Canceled

  predicate IsTerminalTask(status: TaskStatus) {
    status == Succeeded || status == Failed || status == Canceled
  }

  datatype Environment = Research | Staging | Live

  datatype PolicyContext = PolicyContext(
    requiresApproval: Option<bool>,
    liveImpact: Option<bool>,
    targetEnvironment: Option<Environment>)

  datatype Intent = ApplyLocalChange | PromoteToLive | RollbackLive | ValidateChange | Chat

  datatype Approval = Approval(approvalId: Id, approvedAt: int, approvedBy: Id)

  datatype OutcomeStatus = Approved | Rejected | Expired | ApprovalCanceled

  datatype ApprovalOutcome = ApprovalOutcome(
    status: OutcomeStatus, approvalId: Id, decidedAt: int, decidedBy: Id)

  datatype Cancellation = Cancellation(
    requestedAt: int, requestedBy: Id, reason: Option<string>, sourceTaskId: Option<Id>)

  datatype TaskError =
    | WorkerError(message: string)
    | RequeueLimitExceeded(requeueCount: nat, maxRequeueAttempts: nat, previousStatus: TaskStatus)

  datatype TaskResult = TaskResult(
    summary: string,
    artifactIds: set<Id>,
    validationArtifactIds: set<Id>,
    applyArtifactIds: set<Id>)

  datatype WakeVerdict = Scheduled | Skipped | WakeFailed

  datatype WakeDecision = WakeDecision(verdict: WakeVerdict, details: Id, decidedAt: int)

  /** The signal that announces an accepted task to its session; planned until it is
      decided. The texts of the requests are opaque values. */
  datatype Wake = Wake(
    key: Id,
    details: Id,
    decision: Option<WakeDecision>,
    plannedAt: int,
    updatedAt: int,
    replayCount: nat)

  datatype Task = Task(
    exchangeId: Option<Id>,
    parentTaskId: Option<Id>,
    proposalId: Option<Id>,
    intent: Intent,
    requester: Party,
    target: Party,
    targetNodeId: Id,
    assignedWorkerId: Id,
    policyContext: Option<PolicyContext>,
    approval: Option<Approval>,
    approvalOutcome: Option<ApprovalOutcome>,
    status: TaskStatus,
    claimedBy: Option<Id>,
    claimedAt: Option<int>,
    attemptId: Option<Id>,
    createdAt: Timestamp,
    updatedAt: Timestamp,
    completedAt: Option<int>,
    lastHeartbeatAt: Option<int>,
    result: Option<TaskResult>,
    error: Option<TaskError>,
    cancellation: Option<Cancellation>,
    requeueCount: nat,
    artifactIds: set<Id>,
    brokerOfRecord: Option<Id>,
    teamId: Option<Id>,
    payload: Id,
    wake: Option<Wake>)
  {
    predicate RequiresApproval() {
      policyContext.Some? && policyContext.value.requiresApproval == Some(true)
    }
  }

  datatype TombstoneReason = TombFailed | TombCanceled | TombDeadLettered

  datatype Tombstone = Tombstone(
    terminalStatus: TaskStatus, reason: TombstoneReason, requeueCount: nat,
    error: Option<TaskError>, result: Option<TaskResult>, tombstonedAt: int)

  // ----- exchanges -----

  datatype ExchangeStatus = ExchangeQueued | ExchangeRunning | ExchangeCompleted | ExchangeFailed

  datatype Decision = Accepted | PartiallyAccepted | NeedsClarification | Declined

  datatype Exchange = Exchange(
    requester: Party,
    target: Party,
    targetNodeId: Id,
    assignedWorkerId: Option<Id>,
    status: ExchangeStatus,
    currentDecision: Option<Decision>,
    activeTaskId: Option<Id>,
    rootMessageId: Id,
    latestMessageId: Id,
    messageCount: nat,
    updatedAt: Timestamp)

  predicate IsTerminalExchange(status: ExchangeStatus) {
    status == ExchangeCompleted || status == ExchangeFailed
  }

  datatype Message = Message(
    exchangeId: Id,
    isRoot: bool,
    parentMessageId: Option<Id>,
    decision: Option<Decision>,
    targetNodeId: Id,
    assignedWorkerId: Option<Id>,
    createdAt: int)

  /** An exchange after one of its tasks changed: it points at the task and takes
      over its assignment. */
  function Mirrored(e: Exchange, id: Id, task: Task, now: int): Exchange {
    e.(activeTaskId := Some(id), targetNodeId := task.targetNodeId, assignedWorkerId := Some(task.assignedWorkerId),
       target := task.target, updatedAt := Some(now))
  }

  // ----- proposals and evidence -----

  datatype ProposalStatus =
    Submitted | Validated | ProposalApproved | ProposalRejected | ProposalApplied | RolledBack

  predicate IsTerminalProposal(status: ProposalStatus) {
    status == ProposalRejected || status == ProposalApplied || status == RolledBack
  }

  datatype Proposal = Proposal(
    status: ProposalStatus,
    sourceNodeId: Id,
    targetNodeId: Id,
    source: Party,
    target: Party,
    artifactIds: set<Id>,
    updatedAt: Timestamp)

  datatype Artifact = Artifact(proposalId: Id)

  datatype Validation = Validation(proposalId: Id)

  /** What a worker says about itself. Capabilities and metadata are opaque values. */
  datatype Profile = Profile(
    displayName: Option<string>,
    brokerUrl: Option<string>,
    capabilities: Id,
    workerMode: Option<Id>,
    metadata: Option<Id>)

  datatype Worker = Worker(role: Role, profile: Profile, createdAt: int, updatedAt: int, lastSeenAt: Timestamp)

  /** The parts of its profile that a heartbeat may replace. */
  datatype ProfileUpdate = ProfileUpdate(
    displayName: Option<string>,
    brokerUrl: Option<string>,
    capabilities: Option<Id>,
    workerMode: Option<Id>,
    metadata: Option<Id>)

  function Updated(p: Profile, u: ProfileUpdate): Profile {
    Profile(u.displayName.Or(p.displayName), u.brokerUrl.Or(p.brokerUrl), u.capabilities.GetOr(p.capabilities),
            u.workerMode.Or(p.workerMode), u.metadata.Or(p.metadata))
  }

  // ----- audit trail -----

  datatype AuditAction =
    | TaskCreated | TaskApproved | TaskApprovalRejected | TaskClaimed | TaskStarted | TaskHeartbeat
    | TaskSucceeded | TaskFailed | TaskCanceled | TaskReassigned | TaskRequeued | TaskTombstoned
    | TaskUpdated | TaskWakePlanned | TaskWakeDecided(verdict: WakeVerdict)
    | WorkerRegistered | WorkerHeartbeat
    | MessageAdded | ProposalCreated | ArtifactAttached | ValidationSubmitted

  datatype TargetType =
    OnProposal | OnArtifact | OnValidation | OnWorker | OnTask | OnExchange | OnMessage

  datatype AuditEvent = AuditEvent(
    actorId: Id,
    action: AuditAction,
    targetType: TargetType,
    targetId: Id,
    proposalId: Option<Id>,
    createdAt: Timestamp)

  /** Everything that a full snapshot of the broker contains. */
  datatype Tables = Tables(
    exchanges: map<Id, Exchange>,
    messages: map<Id, Message>,
    proposals: map<Id, Proposal>,
    artifacts: map<Id, Artifact>,
    validations: map<Id, Validation>,
    auditEvents: map<Id, AuditEvent>,
    workers: map<Id, Worker>,
    tasks: map<Id, Task>,
    tombstones: map<Id, Tombstone>)

  const EMPTY_TABLES := Tables(map[], map[], map[], map[], map[], map[], map[], map[], map[])

  /** The rows of `base` overwritten, table by table, by the rows of `hot`. */
  function Overlay(base: Tables, hot: Tables): Tables {
    Tables(
      base.exchanges + hot.exchanges,
      base.messages + hot.messages,
      base.proposals + hot.proposals,
      base.artifacts + hot.artifacts,
      base.validations + hot.validations,
      base.auditEvents + hot.auditEvents,
      base.workers + hot.workers,
      base.tasks + hot.tasks,
      base.tombstones + hot.tombstones)
  }
}
