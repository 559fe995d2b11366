/** The task lifecycle as a state machine: one function per broker operation,
    the invariant every run keeps, and what a run can never change. */
module TaskMachine {
  import opened Basics
  import opened BrokerTypes
  import opened ApprovalPolicy

  /** Who this broker is, and how often it requeues a task (0: without limit). */
  datatype Config = Config(brokerId: Option<Id>, teamId: Option<Id>, maxRequeueAttempts: nat)

  // ----- guards -----

  predicate IsPrivileged(actor: Party) {
    actor.role == Some(Hub) || actor.role == Some(Operator)
  }

  /** The assigned worker of a task this broker owns, and its claimant if it has one. */
  function WorkerObjection(t: Task, cfg: Config, workers: map<Id, Worker>, worker: Id): Option<BrokerError> {
    if t.brokerOfRecord.Some? && cfg.brokerId != t.brokerOfRecord then Some(PolicyDenied)
    else if t.teamId.Some? && cfg.teamId != t.teamId then Some(PolicyDenied)
    else if worker !in workers then Some(NotFound)
    else if worker != t.assignedWorkerId then Some(PolicyDenied)
    else if t.claimedBy.Some? && t.claimedBy.value != worker then Some(PolicyDenied)
    else None
  }

  // ----- operations on one task -----

  datatype Command =
    | Claim(worker: Id, attemptId: Id)
    | Start(worker: Id)
    | Heartbeat(worker: Id)
    | Complete(worker: Id, result: TaskResult, evidenceHolds: bool)
    | Fail(worker: Id, message: string)
    | Approve(actor: Option<Party>, approvalId: Id)
    | Reassign(actor: Option<Party>, targetNodeId: Option<Id>, assignedWorkerId: Option<Id>)

  /** `Same`: the call is an accepted repetition and touches nothing. */
  datatype Outcome = Refused(error: BrokerError) | Same | Changed(task: Task, action: AuditAction)

  function RunClaim(t: Task, cfg: Config, workers: map<Id, Worker>, worker: Id, attemptId: Id, now: int): Outcome {
    var objection := WorkerObjection(t, cfg, workers, worker);
    if objection.Some? then Refused(objection.value)
    else if t.RequiresApproval() && t.approval.None? then Refused(PolicyDenied)
    else if t.status != Queued then Refused(InvalidTransition)
    else Changed(t.(status := Claimed, attemptId := Some(attemptId), claimedBy := Some(worker),
                    claimedAt := Some(now), updatedAt := Some(now)), TaskClaimed)
  }

  function RunStart(t: Task, cfg: Config, workers: map<Id, Worker>, worker: Id, now: int): Outcome {
    var objection := WorkerObjection(t, cfg, workers, worker);
    if objection.Some? then Refused(objection.value)
    else if t.status != Claimed then Refused(InvalidTransition)
    else Changed(t.(status := Running, updatedAt := Some(now)), TaskStarted)
  }

  function RunHeartbeat(t: Task, cfg: Config, workers: map<Id, Worker>, worker: Id, now: int): Outcome {
    var objection := WorkerObjection(t, cfg, workers, worker);
    if objection.Some? then Refused(objection.value)
    else if t.status != Claimed && t.status != Running then Refused(InvalidTransition)
    else Changed(t.(lastHeartbeatAt := Some(now), updatedAt := Some(now)), TaskHeartbeat)
  }

  function RunComplete(t: Task, cfg: Config, workers: map<Id, Worker>, worker: Id, result: TaskResult,
                       evidenceHolds: bool, now: int): Outcome
  {
    var objection := WorkerObjection(t, cfg, workers, worker);
    if objection.Some? then Refused(objection.value)
    else if IsTerminalTask(t.status) then Same
    else if t.status != Claimed && t.status != Running then Refused(InvalidTransition)
    else if !evidenceHolds then Refused(EvidenceMissing)
    else Changed(t.(status := Succeeded, claimedBy := Some(worker), updatedAt := Some(now), completedAt := Some(now),
                    result := Some(result), error := None,
                    artifactIds := t.artifactIds + result.artifactIds + result.validationArtifactIds
                                   + result.applyArtifactIds), TaskSucceeded)
  }

  function RunFail(t: Task, cfg: Config, workers: map<Id, Worker>, worker: Id, message: string, now: int): Outcome {
    var objection := WorkerObjection(t, cfg, workers, worker);
    if objection.Some? then Refused(objection.value)
    else if IsTerminalTask(t.status) then Same
    else if t.status != Claimed && t.status != Running then Refused(InvalidTransition)
    else Changed(t.(status := Failed, claimedBy := Some(worker), updatedAt := Some(now), completedAt := Some(now),
                    error := Some(WorkerError(if message == "" then "task failed" else message))), TaskFailed)
  }

  function RunApprove(t: Task, actor: Option<Party>, approvalId: Id, now: int): Outcome {
    if actor.None? then Refused(BadRequest)
    else if !IsPrivileged(actor.value) then Refused(PolicyDenied)
    else if !t.RequiresApproval() then Refused(InvalidTransition)
    else if t.approval.Some? then Same
    else if t.status != Blocked && t.status != Queued then Refused(InvalidTransition)
    else Changed(t.(approval := Some(Approval(approvalId, now, actor.value.id)),
                    approvalOutcome := Some(ApprovalOutcome(Approved, approvalId, now, actor.value.id)),
                    status := Queued, updatedAt := Some(now)), TaskApproved)
  }

  function RunReassign(t: Task, workers: map<Id, Worker>, actor: Option<Party>, targetNodeId: Option<Id>,
                       assignedWorkerId: Option<Id>, now: int): Outcome
  {
    if actor.None? then Refused(BadRequest)
    else if !IsPrivileged(actor.value) then Refused(PolicyDenied)
    else if IsTerminalTask(t.status) then Refused(InvalidTransition)
    else
      var target := targetNodeId.GetOr(t.targetNodeId);
      var worker := assignedWorkerId.GetOr(targetNodeId.GetOr(t.assignedWorkerId));
      if target !in workers || worker !in workers then Refused(NotFound)
      else Changed(t.(targetNodeId := target, target := Party(target, Some(workers[target].role)),
                      assignedWorkerId := worker,
                      status := if t.RequiresApproval() && t.approval.None? then Blocked else Queued,
                      claimedBy := None, claimedAt := None, completedAt := None, result := None, error := None,
                      requeueCount := 0, attemptId := None, updatedAt := Some(now)), TaskReassigned)
  }

  function RunCommand(t: Task, c: Command, cfg: Config, workers: map<Id, Worker>, now: int): Outcome {
    match c
    case Claim(w, attemptId) => RunClaim(t, cfg, workers, w, attemptId, now)
    case Start(w) => RunStart(t, cfg, workers, w, now)
    case Heartbeat(w) => RunHeartbeat(t, cfg, workers, w, now)
    case Complete(w, result, evidenceHolds) => RunComplete(t, cfg, workers, w, result, evidenceHolds, now)
    case Fail(w, message) => RunFail(t, cfg, workers, w, message, now)
    case Approve(actor, approvalId) => RunApprove(t, actor, approvalId, now)
    case Reassign(actor, target, worker) => RunReassign(t, workers, actor, target, worker, now)
  }

  // ----- creation -----

  function CreateObjection(r: CreateRequest, metadataHolds: bool): Option<BrokerError> {
    if r.requester.None? || r.target.None? then Some(BadRequest)
    else if r.workspaceNodeId.Some? && r.workspaceNodeId.value != r.target.value.id then Some(PolicyDenied)
    else if !metadataHolds then Some(BadRequest)
    else None
  }

  function LinkObjection(r: CreateRequest, db: Tables): Option<BrokerError>
    requires r.target.Some?
  {
    if r.exchangeId.Some? && r.exchangeId.value !in db.exchanges then Some(NotFound)
    else if r.target.value.id !in db.workers then Some(NotFound)
    else if r.assignedWorkerId.Some? && r.assignedWorkerId.value !in db.workers then Some(NotFound)
    else if r.proposalId.None? then None
    else if r.proposalId.value !in db.proposals then Some(NotFound)
    else
      var p := db.proposals[r.proposalId.value];
      if r.target.value.id != p.targetNodeId then Some(PolicyDenied)
      else if r.intent == ValidateChange && p.status != Submitted && p.status != Validated then Some(InvalidTransition)
      else if r.intent == ApplyLocalChange && p.status != ProposalApproved then Some(InvalidTransition)
      else if r.intent == ApplyLocalChange && r.workspaceNodeId != Some(p.targetNodeId) then Some(BadRequest)
      else None
  }

  function NewTask(r: CreateRequest, cfg: Config, now: int): Task
    requires r.requester.Some? && r.target.Some?
  {
    var context := NormalizeContext(r);
    Task(r.exchangeId, r.parentTaskId, r.proposalId, r.intent, r.requester.value, r.target.value,
         r.target.value.id, r.assignedWorkerId.GetOr(r.target.value.id), context, None, None,
         if StoredFlag(context) then Blocked else Queued,
         None, None, None, r.createdAt.GetOr(Some(now)), Some(now), None, None, None, None, None, 0, r.artifactIds,
         if r.brokerOfRecord.Some? then r.brokerOfRecord else cfg.brokerId,
         if r.teamId.Some? then r.teamId else cfg.teamId, r.payload, None)
  }

  // ----- the book: live tasks, tombstones, and every audit row ever written -----

  /** `trail` is the full history: retention never shortens it. */
  datatype Book = Book(tasks: map<Id, Task>, tombstones: map<Id, Tombstone>, trail: map<Id, seq<AuditAction>>)

  const EMPTY_BOOK := Book(map[], map[], map[])

  function TrailOf(b: Book, id: Id): seq<AuditAction> {
    if id in b.trail then b.trail[id] else []
  }

  function Commit(b: Book, id: Id, t: Task, actions: seq<AuditAction>): Book {
    b.(tasks := b.tasks[id := t], trail := b.trail[id := TrailOf(b, id) + actions])
  }

  function TombstoneOf(t: Task, reason: TombstoneReason, now: int): Tombstone {
    Tombstone(t.status, reason, t.requeueCount, t.error, t.result, now)
  }

  function Bury(b: Book, id: Id, reason: TombstoneReason, now: int): Book
    requires id in b.tasks
  {
    b.(tombstones := b.tombstones[id := TombstoneOf(b.tasks[id], reason, now)],
       trail := b.trail[id := TrailOf(b, id) + [TaskTombstoned]])
  }

  datatype Reply = Reply(book: Book, result: Result<Task, BrokerError>)

  function DoCommand(b: Book, id: Id, c: Command, cfg: Config, workers: map<Id, Worker>, now: int): Reply {
    if id !in b.tasks then Reply(b, Err(NotFound))
    else match RunCommand(b.tasks[id], c, cfg, workers, now)
      case Refused(e) => Reply(b, Err(e))
      case Same => Reply(b, Ok(b.tasks[id]))
      case Changed(t, action) =>
        var b1 := Commit(b, id, t, [action]);
        Reply(if t.status == Failed then Bury(b1, id, TombFailed, now) else b1, Ok(t))
  }

  /** A heartbeat whose audit row is sampled away. */
  function DoSilentHeartbeat(b: Book, id: Id, worker: Id, cfg: Config, workers: map<Id, Worker>, now: int): Book {
    DoCommand(b, id, Heartbeat(worker), cfg, workers, now).book.(trail := b.trail)
  }

  function DoCreate(b: Book, r: CreateRequest, newId: Id, metadataHolds: bool, cfg: Config, db: Tables, now: int): Reply
  {
    var objection := CreateObjection(r, metadataHolds);
    if objection.Some? then Reply(b, Err(objection.value))
    else if r.id.Some? && r.id.value in b.tasks then Reply(b, Ok(b.tasks[r.id.value]))
    else
      var link := LinkObjection(r, db);
      if link.Some? then Reply(b, Err(link.value))
      else
        var id := r.id.GetOr(newId);
        var t := NewTask(r, cfg, now);
        Reply(b.(tasks := b.tasks[id := t], trail := b.trail[id := [TaskCreated]]), Ok(t))
  }

  // ----- cancellation fan-out -----

  predicate IsLive(tasks: map<Id, Task>, id: Id) {
    id in tasks && !IsTerminalTask(tasks[id].status)
  }

  /** A walk along child edges through tasks that are not terminal. */
  ghost predicate IsChildPath(tasks: map<Id, Task>, p: seq<Id>) {
    p != []
    && (forall i :: 0 <= i < |p| ==> IsLive(tasks, p[i]))
    && (forall i :: 1 <= i < |p| ==> tasks[p[i]].parentTaskId == Some(p[i - 1]))
  }

  ghost predicate Reaches(tasks: map<Id, Task>, root: Id, id: Id) {
    exists p :: IsChildPath(tasks, p) && p[0] == root && p[|p| - 1] == id
  }

  ghost function CancelSet(tasks: map<Id, Task>, root: Id): set<Id> {
    set id | id in tasks && Reaches(tasks, root, id)
  }

  function CanceledTask(t: Task, actorId: Id, reason: Option<string>, source: Option<Id>, now: int): Task {
    t.(status := Canceled, claimedBy := None, claimedAt := None, completedAt := Some(now), updatedAt := Some(now),
       result := None, error := None, cancellation := Some(Cancellation(now, actorId, reason, source)))
  }

  /** The book after canceling exactly the tasks in `ids`, each on behalf of its
      own parent except the root. */
  function CancelAll(b: Book, ids: set<Id>, root: Id, source: Option<Id>, actorId: Id, reason: Option<string>,
                     now: int): Book
    requires ids <= b.tasks.Keys
  {
    Book(
      CanceledTasks(b.tasks, ids, root, source, actorId, reason, now),
      CanceledTombstones(b, ids, root, source, actorId, reason, now),
      CanceledTrail(b.trail, ids))
  }

  function CanceledTasks(tasks: map<Id, Task>, ids: set<Id>, root: Id, source: Option<Id>, actorId: Id,
                         reason: Option<string>, now: int): (after: map<Id, Task>)
    ensures after.Keys == tasks.Keys
  {
    map id | id in tasks ::
      if id in ids then CanceledIn(tasks[id], id, root, source, actorId, reason, now) else tasks[id]
  }

  function CanceledTombstones(b: Book, ids: set<Id>, root: Id, source: Option<Id>, actorId: Id,
                              reason: Option<string>, now: int): map<Id, Tombstone>
    requires ids <= b.tasks.Keys
  {
    map id | id in b.tombstones.Keys + ids ::
      if id in ids then TombstoneOf(CanceledIn(b.tasks[id], id, root, source, actorId, reason, now), TombCanceled, now)
      else b.tombstones[id]
  }

  function CanceledTrail(trail: map<Id, seq<AuditAction>>, ids: set<Id>): map<Id, seq<AuditAction>> {
    map id | id in trail.Keys + ids ::
      if id in ids then (if id in trail then trail[id] else []) + [TaskCanceled, TaskTombstoned] else trail[id]
  }

  function CanceledIn(t: Task, id: Id, root: Id, source: Option<Id>, actorId: Id, reason: Option<string>,
                      now: int): Task
  {
    CanceledTask(t, actorId, reason, if id == root then source else t.parentTaskId, now)
  }

  ghost function CancelTree(b: Book, root: Id, actorId: Id, reason: Option<string>, now: int): Book {
    CancelAll(b, CancelSet(b.tasks, root), root, None, actorId, reason, now)
  }

  function CancelObjection(t: Task, actor: Option<Party>): Option<BrokerError> {
    if actor.None? then Some(BadRequest)
    else
      var who := actor.value.id;
      if !IsPrivileged(actor.value) && who != t.requester.id && Some(who) != t.claimedBy
         && who != t.assignedWorkerId && who != t.targetNodeId
      then Some(PolicyDenied)
      else None
  }

  ghost function DoCancel(b: Book, id: Id, actor: Option<Party>, reason: Option<string>, now: int): Reply {
    if id !in b.tasks then Reply(b, Err(NotFound))
    else
      var t := b.tasks[id];
      var objection := CancelObjection(t, actor);
      if objection.Some? then Reply(b, Err(objection.value))
      else if IsTerminalTask(t.status) then Reply(b, Ok(t))
      else Reply(CancelTree(b, id, actor.value.id, reason, now),
                 Ok(CanceledTask(t, actor.value.id, reason, None, now)))
  }

  function RejectObjection(t: Task, actor: Option<Party>): Option<BrokerError> {
    if actor.None? then Some(BadRequest)
    else if !IsPrivileged(actor.value) then Some(PolicyDenied)
    else if !t.RequiresApproval() then Some(InvalidTransition)
    else if t.approval.Some? || (t.approvalOutcome.Some? && t.approvalOutcome.value.status == Approved)
    then Some(InvalidTransition)
    else if t.approvalOutcome.None? && t.status != Blocked && t.status != Queued then Some(InvalidTransition)
    else None
  }

  /** Anything but an expiry or a cancellation counts as a rejection. */
  function RejectionStatus(asked: Option<OutcomeStatus>): OutcomeStatus {
    if asked == Some(Expired) || asked == Some(ApprovalCanceled) then asked.value else Rejected
  }

  function RejectedTask(t: Task, actor: Party, approvalId: Id, asked: Option<OutcomeStatus>, now: int): Task {
    t.(approvalOutcome := Some(ApprovalOutcome(RejectionStatus(asked), approvalId, now, actor.id)))
  }

  ghost function DoReject(b: Book, id: Id, actor: Option<Party>, approvalId: Id, asked: Option<OutcomeStatus>,
                          reason: string, now: int): Reply
  {
    if id !in b.tasks then Reply(b, Err(NotFound))
    else
      var t := b.tasks[id];
      var objection := RejectObjection(t, actor);
      if objection.Some? then Reply(b, Err(objection.value))
      else if t.approvalOutcome.Some? then Reply(b, Ok(t))
      else
        var rejected := RejectedTask(t, actor.value, approvalId, asked, now);
        Reply(TurnDown(b, id, rejected, actor.value.id, reason, now),
              Ok(CanceledTask(rejected, actor.value.id, Some(reason), None, now)))
  }

  /** The whole tree below a task whose approval was turned down is canceled. */
  ghost function TurnDown(b: Book, id: Id, rejected: Task, actorId: Id, reason: string, now: int): Book {
    var b1 := CancelTree(b.(tasks := b.tasks[id := rejected]), id, actorId, Some(reason), now);
    b1.(trail := b1.trail[id := TrailOf(b1, id) + [TaskApprovalRejected]])
  }

  // ----- the stale-task sweep -----

  predicate IsStale(t: Task, olderThanMs: nat, staleWorkers: set<Id>, nowMs: int) {
    (t.status == Claimed || t.status == Running)
    && t.completedAt.None?
    && ((t.claimedBy.Some? && t.claimedBy.value in staleWorkers)
        || (t.updatedAt.Some? && nowMs - t.updatedAt.value >= olderThanMs))
  }

  predicate IsExhausted(t: Task, cap: nat) {
    cap > 0 && t.requeueCount >= cap
  }

  function RequeuedTask(t: Task, nowMs: int): Task {
    t.(status := Queued, claimedBy := None, claimedAt := None, completedAt := None, attemptId := None,
       updatedAt := Some(nowMs), requeueCount := t.requeueCount + 1)
  }

  function DeadLetteredTask(t: Task, cap: nat, nowMs: int): Task {
    t.(status := Failed, updatedAt := Some(nowMs), completedAt := Some(nowMs),
       error := Some(RequeueLimitExceeded(t.requeueCount, cap, t.status)))
  }

  function StaleTasks(tasks: map<Id, Task>, olderThanMs: nat, staleWorkers: set<Id>, nowMs: int): set<Id> {
    set id | id in tasks && IsStale(tasks[id], olderThanMs, staleWorkers, nowMs)
  }

  function SweptTask(t: Task, cap: nat, nowMs: int): Task {
    if IsExhausted(t, cap) then DeadLetteredTask(t, cap, nowMs) else RequeuedTask(t, nowMs)
  }

  /** The book after sweeping exactly the tasks in `ids`. */
  function SweepAll(b: Book, ids: set<Id>, cap: nat, nowMs: int): Book
    requires ids <= b.tasks.Keys
  {
    Book(SweptTasks(b.tasks, ids, cap, nowMs), SweptTombstones(b, ids, cap, nowMs), SweptTrail(b, ids, cap))
  }

  function SweptTasks(tasks: map<Id, Task>, ids: set<Id>, cap: nat, nowMs: int): map<Id, Task> {
    map id | id in tasks :: if id in ids then SweptTask(tasks[id], cap, nowMs) else tasks[id]
  }

  function Exhausted(tasks: map<Id, Task>, ids: set<Id>, cap: nat): set<Id> {
    set id | id in ids && id in tasks && IsExhausted(tasks[id], cap)
  }

  function SweptTombstones(b: Book, ids: set<Id>, cap: nat, nowMs: int): map<Id, Tombstone>
    requires ids <= b.tasks.Keys
  {
    map id | id in b.tombstones.Keys + Exhausted(b.tasks, ids, cap) ::
      if id in Exhausted(b.tasks, ids, cap)
      then TombstoneOf(DeadLetteredTask(b.tasks[id], cap, nowMs), TombDeadLettered, nowMs)
      else b.tombstones[id]
  }

  function SweptTrail(b: Book, ids: set<Id>, cap: nat): map<Id, seq<AuditAction>>
    requires ids <= b.tasks.Keys
  {
    map id | id in b.trail.Keys + ids ::
      if id in Exhausted(b.tasks, ids, cap) then TrailOf(b, id) + [TaskFailed, TaskTombstoned]
      else if id in ids then TrailOf(b, id) + [TaskRequeued]
      else b.trail[id]
  }

  function DoSweep(b: Book, olderThanMs: nat, staleWorkers: set<Id>, cap: nat, nowMs: int): Book {
    SweepAll(b, StaleTasks(b.tasks, olderThanMs, staleWorkers, nowMs), cap, nowMs)
  }

  // ----- retention, as far as tasks are concerned -----

  /** `b` is `full` without some of its terminal tasks. */
  ghost predicate IsPruned(full: Book, b: Book) {
    b.tasks.Keys <= full.tasks.Keys
    && b.tasks == Restrict(full.tasks, b.tasks.Keys)
    && (forall id :: IsLive(full.tasks, id) ==> id in b.tasks)
    && b.tombstones == full.tombstones
    && b.trail == full.trail
  }

  // ----- the invariant -----

  /** Automatic requeues since the task was created or last reassigned. */
  function RequeuesSince(trail: seq<AuditAction>): nat {
    if trail == [] then 0
    else
      var last := trail[|trail| - 1];
      var before := trail[..|trail| - 1];
      if last == TaskReassigned then 0
      else RequeuesSince(before) + if last == TaskRequeued then 1 else 0
  }

  predicate IsTermination(a: AuditAction) {
    a == TaskSucceeded || a == TaskFailed || a == TaskCanceled
  }

  function Terminations(trail: seq<AuditAction>): nat {
    if trail == [] then 0
    else Terminations(trail[..|trail| - 1]) + if IsTermination(trail[|trail| - 1]) then 1 else 0
  }

  /** Every claim comes after an approval. */
  ghost predicate GateRespected(trail: seq<AuditAction>) {
    forall i :: 0 <= i < |trail| && trail[i] == TaskClaimed ==> TaskApproved in trail[..i]
  }

  /** What the fields of one task always say about each other. */
  ghost predicate FieldInv(t: Task, buried: bool, cap: nat) {
    && ((t.status == Claimed || t.status == Running) ==> t.claimedBy == Some(t.assignedWorkerId) && t.attemptId.Some?)
    && ((t.status == Queued || t.status == Blocked) ==> t.claimedBy.None? && t.attemptId.None?)
    && (t.status == Blocked ==> t.RequiresApproval() && t.approval.None?)
    && (t.RequiresApproval() && t.approval.None? ==> t.status == Blocked || t.status == Canceled)
    && (t.approval.Some? <==> t.approvalOutcome.Some? && t.approvalOutcome.value.status == Approved)
    && (t.approvalOutcome.Some? && t.approvalOutcome.value.status != Approved ==> t.status == Canceled)
    && (IsTerminalTask(t.status) <==> t.completedAt.Some?)
    && (t.status == Succeeded <==> t.result.Some?)
    && (t.status == Failed <==> t.error.Some?)
    && (t.status == Canceled <==> t.cancellation.Some?)
    && (buried <==> t.status == Failed || t.status == Canceled)
    && (cap > 0 ==> t.requeueCount <= cap)
  }

  /** What a task says about its own history. */
  ghost predicate TrailInv(t: Task, trail: seq<AuditAction>) {
    && t.requeueCount == RequeuesSince(trail)
    && Terminations(trail) == (if IsTerminalTask(t.status) then 1 else 0)
    && (t.approval.Some? ==> TaskApproved in trail)
    && (t.RequiresApproval() ==> GateRespected(trail))
  }

  ghost predicate TaskInv(t: Task, trail: seq<AuditAction>, buried: bool, cap: nat) {
    FieldInv(t, buried, cap) && TrailInv(t, trail)
  }

  ghost predicate Sound(b: Book, cap: nat) {
    && b.tasks.Keys <= b.trail.Keys
    && b.tombstones.Keys <= b.trail.Keys
    && forall id :: id in b.tasks ==> TaskInv(b.tasks[id], TrailOf(b, id), id in b.tombstones, cap)
  }

  lemma TrailAppend(trail: seq<AuditAction>, a: AuditAction)
    ensures RequeuesSince(trail + [a]) ==
      if a == TaskReassigned then 0 else RequeuesSince(trail) + if a == TaskRequeued then 1 else 0
    ensures Terminations(trail + [a]) == Terminations(trail) + if IsTermination(a) then 1 else 0
    ensures GateRespected(trail) && (a == TaskClaimed ==> TaskApproved in trail) ==> GateRespected(trail + [a])
    ensures TaskApproved in trail || a == TaskApproved ==> TaskApproved in trail + [a]
  {
    assert (trail + [a])[..|trail|] == trail;
    if GateRespected(trail) && (a == TaskClaimed ==> TaskApproved in trail) {
      forall i | 0 <= i < |trail + [a]| && (trail + [a])[i] == TaskClaimed ensures TaskApproved in (trail + [a])[..i] {
        if i < |trail| {
          assert (trail + [a])[..i] == trail[..i];
        }
      }
    }
  }

  // ----- each operation keeps the invariant -----

  lemma CommandKeepsTask(t: Task, c: Command, cfg: Config, workers: map<Id, Worker>, now: int,
                         trail: seq<AuditAction>, buried: bool)
    requires TaskInv(t, trail, buried, cfg.maxRequeueAttempts)
    requires RunCommand(t, c, cfg, workers, now).Changed?
    ensures var o := RunCommand(t, c, cfg, workers, now);
      TaskInv(o.task, trail + [o.action], o.task.status == Failed, cfg.maxRequeueAttempts)
      && !buried && !IsTerminalTask(t.status)
  {
    hide RequeuesSince, Terminations, GateRespected;
    TrailAppend(trail, RunCommand(t, c, cfg, workers, now).action);
  }

  lemma TombstoneKeepsTask(t: Task, trail: seq<AuditAction>, buried: bool, cap: nat)
    requires TaskInv(t, trail, buried, cap)
    ensures TaskInv(t, trail + [TaskTombstoned], buried, cap)
  {
    TrailAppend(trail, TaskTombstoned);
  }

  /** The books differ at one task only. */
  ghost predicate SameElsewhere(b: Book, b': Book, id: Id) {
    forall x :: x in b'.tasks && x != id ==>
      (x in b.tasks && b'.tasks[x] == b.tasks[x] && TrailOf(b', x) == TrailOf(b, x)
       && (x in b'.tombstones <==> x in b.tombstones))
  }

  lemma OneTaskChanged(b: Book, b': Book, id: Id, cap: nat)
    requires Sound(b, cap) && b'.tasks.Keys <= b'.trail.Keys && b'.tombstones.Keys <= b'.trail.Keys
    requires id in b'.tasks && TaskInv(b'.tasks[id], TrailOf(b', id), id in b'.tombstones, cap)
    requires SameElsewhere(b, b', id)
    ensures Sound(b', cap)
  {
    hide TaskInv, TrailOf;
  }

  lemma CommitKeepsSound(b: Book, id: Id, t: Task, action: AuditAction, cap: nat)
    requires Sound(b, cap) && TaskInv(t, TrailOf(b, id) + [action], id in b.tombstones, cap)
    ensures Sound(Commit(b, id, t, [action]), cap)
  {
    hide TaskInv;
    OneTaskChanged(b, Commit(b, id, t, [action]), id, cap);
  }

  lemma BuriedKeepsSound(b: Book, id: Id, t: Task, action: AuditAction, reason: TombstoneReason, now: int, cap: nat)
    requires Sound(b, cap) && TaskInv(t, TrailOf(b, id) + [action], true, cap)
    ensures Sound(Bury(Commit(b, id, t, [action]), id, reason, now), cap)
  {
    hide TaskInv;
    TombstoneKeepsTask(t, TrailOf(b, id) + [action], true, cap);
    OneTaskChanged(b, Bury(Commit(b, id, t, [action]), id, reason, now), id, cap);
  }

  lemma CommandKeepsSound(b: Book, id: Id, c: Command, cfg: Config, workers: map<Id, Worker>, now: int)
    requires Sound(b, cfg.maxRequeueAttempts)
    ensures Sound(DoCommand(b, id, c, cfg, workers, now).book, cfg.maxRequeueAttempts)
  {
    var cap := cfg.maxRequeueAttempts;
    hide RunCommand, TaskInv, Bury, Commit;
    if id in b.tasks && RunCommand(b.tasks[id], c, cfg, workers, now).Changed? {
      var o := RunCommand(b.tasks[id], c, cfg, workers, now);
      CommandKeepsTask(b.tasks[id], c, cfg, workers, now, TrailOf(b, id), id in b.tombstones);
      if o.task.status == Failed {
        BuriedKeepsSound(b, id, o.task, o.action, TombFailed, now, cap);
      } else {
        CommitKeepsSound(b, id, o.task, o.action, cap);
      }
    }
  }

  lemma HeartbeatOnlyTicks(b: Book, id: Id, worker: Id, cfg: Config, workers: map<Id, Worker>, now: int)
    ensures var after := DoCommand(b, id, Heartbeat(worker), cfg, workers, now).book.tasks;
      after == b.tasks
      || (id in b.tasks && after == b.tasks[id := b.tasks[id].(lastHeartbeatAt := Some(now), updatedAt := Some(now))])
    ensures DoCommand(b, id, Heartbeat(worker), cfg, workers, now).book.tombstones == b.tombstones
  {
    hide WorkerObjection;
  }

  lemma SilentHeartbeatKeepsSound(b: Book, id: Id, worker: Id, cfg: Config, workers: map<Id, Worker>, now: int)
    requires Sound(b, cfg.maxRequeueAttempts)
    ensures Sound(DoSilentHeartbeat(b, id, worker, cfg, workers, now), cfg.maxRequeueAttempts)
  {
    hide DoCommand, TaskInv;
    HeartbeatOnlyTicks(b, id, worker, cfg, workers, now);
    var silent := DoSilentHeartbeat(b, id, worker, cfg, workers, now);
    if silent != b {
      TickKeepsTask(b.tasks[id], TrailOf(b, id), id in b.tombstones, cfg.maxRequeueAttempts, now);
      OneTaskChanged(b, silent, id, cfg.maxRequeueAttempts);
    }
  }

  lemma TickKeepsTask(t: Task, trail: seq<AuditAction>, buried: bool, cap: nat, now: int)
    requires TaskInv(t, trail, buried, cap)
    ensures TaskInv(t.(lastHeartbeatAt := Some(now), updatedAt := Some(now)), trail, buried, cap)
  {
  }

  /** Creation keeps the invariant as long as the new identifier has no past. */
  lemma CreateKeepsSound(b: Book, r: CreateRequest, newId: Id, metadataHolds: bool, cfg: Config, db: Tables, now: int)
    requires Sound(b, cfg.maxRequeueAttempts)
    requires r.id.GetOr(newId) in b.tasks || r.id.GetOr(newId) !in b.trail
    requires r.id.None? ==> newId !in b.tasks
    ensures Sound(DoCreate(b, r, newId, metadataHolds, cfg, db, now).book, cfg.maxRequeueAttempts)
  {
    hide LinkObjection, TaskInv, NormalizeContext;
    var reply := DoCreate(b, r, newId, metadataHolds, cfg, db, now);
    if reply.book != b {
      var id := r.id.GetOr(newId);
      NewTaskInv(NewTask(r, cfg, now), r, cfg, now);
      forall x | x in reply.book.tasks && x != id
        ensures TaskInv(reply.book.tasks[x], TrailOf(reply.book, x), x in reply.book.tombstones, cfg.maxRequeueAttempts)
      {
        assert TaskInv(b.tasks[x], TrailOf(b, x), x in b.tombstones, cfg.maxRequeueAttempts);
      }
    }
  }

  lemma NewTaskInv(t: Task, r: CreateRequest, cfg: Config, now: int)
    requires r.requester.Some? && r.target.Some? && t == NewTask(r, cfg, now)
    ensures TaskInv(t, [TaskCreated], false, cfg.maxRequeueAttempts)
  {
    TrailAppend([], TaskCreated);
    assert [] + [TaskCreated] == [TaskCreated];
  }

  /** The other half: an identifier that left a tombstone behind (its task was
      pruned) cannot be created again without breaking the agreement between
      live tasks and tombstones. */
  lemma ReusedIdBreaksTombstones(b: Book, r: CreateRequest, newId: Id, cfg: Config, db: Tables, now: int)
    requires r.id.Some? && r.id.value !in b.tasks && CreateObjection(r, true).None? && LinkObjection(r, db).None?
    ensures var b' := DoCreate(b, r, newId, true, cfg, db, now).book;
      r.id.value in b'.tasks
      && (TaskInv(b'.tasks[r.id.value], TrailOf(b', r.id.value), r.id.value in b'.tombstones, cfg.maxRequeueAttempts)
          <==> r.id.value !in b.tombstones)
  {
    NewTaskInv(NewTask(r, cfg, now), r, cfg, now);
  }

  lemma CanceledKeepsTask(t: Task, trail: seq<AuditAction>, actorId: Id, reason: Option<string>, source: Option<Id>,
                          now: int, cap: nat)
    requires !IsTerminalTask(t.status) && TrailInv(t, trail)
    requires cap > 0 ==> t.requeueCount <= cap
    requires t.approval.Some? <==> t.approvalOutcome.Some? && t.approvalOutcome.value.status == Approved
    ensures TaskInv(CanceledTask(t, actorId, reason, source, now), trail + [TaskCanceled, TaskTombstoned], true, cap)
  {
    hide RequeuesSince, Terminations, GateRespected;
    TrailAppend(trail, TaskCanceled);
    TrailAppend(trail + [TaskCanceled], TaskTombstoned);
    assert trail + [TaskCanceled, TaskTombstoned] == trail + [TaskCanceled] + [TaskTombstoned];
  }

  /** `b` may break the invariant only at the root, whose approval was just
      turned down; canceling repairs it. */
  lemma CancelAllKeepsSound(b: Book, ids: set<Id>, root: Id, source: Option<Id>, actorId: Id, reason: Option<string>,
                            now: int, cap: nat)
    requires ids <= b.tasks.Keys && b.tasks.Keys <= b.trail.Keys && b.tombstones.Keys <= b.trail.Keys
    requires forall id :: id in ids ==> IsLive(b.tasks, id)
    requires forall id :: id in b.tasks && id !in ids ==> TaskInv(b.tasks[id], TrailOf(b, id), id in b.tombstones, cap)
    requires forall id :: id in ids ==>
      TrailInv(b.tasks[id], TrailOf(b, id)) && (cap > 0 ==> b.tasks[id].requeueCount <= cap)
      && (b.tasks[id].approval.Some? <==>
          b.tasks[id].approvalOutcome.Some? && b.tasks[id].approvalOutcome.value.status == Approved)
    ensures Sound(CancelAll(b, ids, root, source, actorId, reason, now), cap)
  {
    hide TrailInv, FieldInv;
    var b' := CancelAll(b, ids, root, source, actorId, reason, now);
    forall id | id in b'.tasks ensures TaskInv(b'.tasks[id], TrailOf(b', id), id in b'.tombstones, cap) {
      if id in ids {
        CanceledKeepsTask(b.tasks[id], TrailOf(b, id), actorId, reason,
                          if id == root then source else b.tasks[id].parentTaskId, now, cap);
      } else {
        assert TaskInv(b.tasks[id], TrailOf(b, id), id in b.tombstones, cap);
      }
    }
  }

  lemma CancelSetIsLive(tasks: map<Id, Task>, root: Id)
    ensures forall id :: id in CancelSet(tasks, root) ==> IsLive(tasks, id)
    ensures IsLive(tasks, root) ==> root in CancelSet(tasks, root)
  {
    forall id | id in CancelSet(tasks, root) ensures IsLive(tasks, id) {
      var p :| IsChildPath(tasks, p) && p[0] == root && p[|p| - 1] == id;
    }
    if IsLive(tasks, root) {
      assert IsChildPath(tasks, [root]);
    }
  }

  lemma CancelKeepsSound(b: Book, id: Id, actor: Option<Party>, reason: Option<string>, now: int, cap: nat)
    requires Sound(b, cap)
    ensures Sound(DoCancel(b, id, actor, reason, now).book, cap)
  {
    hide CancelSet, TrailInv;
    if DoCancel(b, id, actor, reason, now).book != b {
      CancelSetIsLive(b.tasks, id);
      CancelAllKeepsSound(b, CancelSet(b.tasks, id), id, None, actor.value.id, reason, now, cap);
    }
  }

  lemma RejectKeepsSound(b: Book, id: Id, actor: Option<Party>, approvalId: Id, asked: Option<OutcomeStatus>,
                         reason: string, now: int, cap: nat)
    requires Sound(b, cap)
    ensures Sound(DoReject(b, id, actor, approvalId, asked, reason, now).book, cap)
  {
    hide TrailInv, TurnDown;
    if DoReject(b, id, actor, approvalId, asked, reason, now).book != b {
      var rejected := RejectedTask(b.tasks[id], actor.value, approvalId, asked, now);
      RejectedKeepsTrail(b.tasks[id], rejected, TrailOf(b, id));
      TurnDownKeepsSound(b, id, rejected, actor.value.id, reason, now, cap);
    }
  }

  lemma RejectedKeepsTrail(t: Task, rejected: Task, trail: seq<AuditAction>)
    requires TrailInv(t, trail) && rejected == t.(approvalOutcome := rejected.approvalOutcome)
    ensures TrailInv(rejected, trail)
  {
    hide RequeuesSince, Terminations, GateRespected;
  }

  lemma TurnDownKeepsSound(b: Book, id: Id, rejected: Task, actorId: Id, reason: string, now: int, cap: nat)
    requires Sound(b, cap) && id in b.tasks
    requires !IsTerminalTask(rejected.status) && TrailInv(rejected, TrailOf(b, id))
    requires rejected.approval.None? && rejected.approvalOutcome.Some?
    requires rejected.approvalOutcome.value.status != Approved && (cap > 0 ==> rejected.requeueCount <= cap)
    ensures Sound(TurnDown(b, id, rejected, actorId, reason, now), cap)
  {
    hide CancelSet, RequeuesSince, Terminations, GateRespected, CancelAll;
    var b0 := b.(tasks := b.tasks[id := rejected]);
    CancelSetIsLive(b0.tasks, id);
    CancelAllKeepsSound(b0, CancelSet(b0.tasks, id), id, None, actorId, Some(reason), now, cap);
    LateRow(CancelTree(b0, id, actorId, Some(reason), now), id, TaskApprovalRejected, cap);
  }

  lemma LateRow(b: Book, id: Id, action: AuditAction, cap: nat)
    requires Sound(b, cap) && action in {TaskApprovalRejected, TaskTombstoned}
    ensures Sound(b.(trail := b.trail[id := TrailOf(b, id) + [action]]), cap)
  {
    hide RequeuesSince, Terminations, GateRespected;
    TrailAppend(TrailOf(b, id), action);
    var b' := b.(trail := b.trail[id := TrailOf(b, id) + [action]]);
    forall x | x in b'.tasks ensures TaskInv(b'.tasks[x], TrailOf(b', x), x in b'.tombstones, cap) {
      assert TaskInv(b.tasks[x], TrailOf(b, x), x in b.tombstones, cap);
    }
  }

  lemma SweptKeepsTask(t: Task, trail: seq<AuditAction>, buried: bool, cap: nat, nowMs: int)
    requires TaskInv(t, trail, buried, cap) && (t.status == Claimed || t.status == Running)
    ensures if IsExhausted(t, cap)
      then TaskInv(DeadLetteredTask(t, cap, nowMs), trail + [TaskFailed, TaskTombstoned], true, cap)
      else TaskInv(RequeuedTask(t, nowMs), trail + [TaskRequeued], buried, cap)
  {
    hide RequeuesSince, Terminations, GateRespected;
    TrailAppend(trail, TaskRequeued);
    TrailAppend(trail, TaskFailed);
    TrailAppend(trail + [TaskFailed], TaskTombstoned);
    assert trail + [TaskFailed, TaskTombstoned] == trail + [TaskFailed] + [TaskTombstoned];
  }

  lemma SweepKeepsSound(b: Book, olderThanMs: nat, staleWorkers: set<Id>, cap: nat, nowMs: int)
    requires Sound(b, cap)
    ensures Sound(DoSweep(b, olderThanMs, staleWorkers, cap, nowMs), cap)
  {
    hide TaskInv, IsExhausted, DeadLetteredTask, RequeuedTask;
    var b' := DoSweep(b, olderThanMs, staleWorkers, cap, nowMs);
    forall id | id in b'.tasks ensures TaskInv(b'.tasks[id], TrailOf(b', id), id in b'.tombstones, cap) {
      assert TaskInv(b.tasks[id], TrailOf(b, id), id in b.tombstones, cap);
      if id in StaleTasks(b.tasks, olderThanMs, staleWorkers, nowMs) {
        SweptKeepsTask(b.tasks[id], TrailOf(b, id), id in b.tombstones, cap, nowMs);
      }
    }
  }

  lemma PruneKeepsSound(full: Book, b: Book, cap: nat)
    requires Sound(full, cap) && IsPruned(full, b)
    ensures Sound(b, cap)
  {
    hide TaskInv;
    forall id | id in b.tasks ensures TaskInv(b.tasks[id], TrailOf(b, id), id in b.tombstones, cap) {
      assert TaskInv(full.tasks[id], TrailOf(full, id), id in full.tombstones, cap);
    }
  }

  lemma SweptIsNotStale(t: Task, olderThanMs: nat, staleWorkers: set<Id>, again: set<Id>, cap: nat, nowMs: int)
    requires again <= staleWorkers
    ensures !IsStale(if IsStale(t, olderThanMs, staleWorkers, nowMs) then SweptTask(t, cap, nowMs) else t,
                     olderThanMs, again, nowMs)
  {
  }

  lemma SweepNothing(b: Book, cap: nat, nowMs: int)
    ensures SweepAll(b, {}, cap, nowMs) == b
  {
    assert SweptTasks(b.tasks, {}, cap, nowMs) == b.tasks;
    assert SweptTombstones(b, {}, cap, nowMs) == b.tombstones;
    assert SweptTrail(b, {}, cap) == b.trail;
  }

  /** Sweeping again at the same time, even after a retention pass, finds
      nothing to requeue or to dead-letter. */
  lemma SecondSweepIsEmpty(b: Book, kept: Book, olderThanMs: nat, staleWorkers: set<Id>, again: set<Id>, cap: nat,
                           nowMs: int)
    requires again <= staleWorkers
    requires IsPruned(DoSweep(b, olderThanMs, staleWorkers, cap, nowMs), kept)
    ensures StaleTasks(kept.tasks, olderThanMs, again, nowMs) == {}
    ensures DoSweep(kept, olderThanMs, again, cap, nowMs) == kept
  {
    hide IsStale, SweptTask, SweptTombstones, SweptTrail;
    forall id | id in kept.tasks ensures !IsStale(kept.tasks[id], olderThanMs, again, nowMs) {
      SweptIsNotStale(b.tasks[id], olderThanMs, staleWorkers, again, cap, nowMs);
    }
    SweepNothing(kept, cap, nowMs);
  }
}
