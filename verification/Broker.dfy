/** The in-memory broker: live tables, rows not yet written out, and the durable
    copy they are written to. Every public operation is proved against the state
    machine of `TaskMachine`, and keeps the durable copy recoverable. */
module Broker {
  import opened Basics
  import opened BrokerTypes
  import opened ApprovalPolicy
  import opened TaskMachine
  import opened TaskNotes
  import opened CancelTree
  import opened ExchangeSync
  import Retention

  const HOT_PERSIST_FULL_RETENTION_INTERVAL_MS: int := 5 * 60_000

  lemma RetainPrunesTasks(db: Tables, p: Retention.Policy, now: int, trail: map<Id, seq<AuditAction>>)
    ensures var r := Retention.Retain(db, p, now);
      IsPruned(Book(db.tasks, db.tombstones, trail), Book(r.tasks, r.tombstones, trail))
  {
    hide Retention.KeptAudit, Retention.WorkersNamed, Retention.ArtifactsNamed, Retention.KeptWorkers,
      Retention.Newest, Retention.Named, Retention.OwnedBy;
  }

  lemma PruneTwice(full: Book, b: Book, b': Book)
    requires IsPruned(full, b) && IsPruned(b, b')
    ensures IsPruned(full, b')
  {
    forall id | IsLive(full.tasks, id) ensures id in b'.tasks {
      assert IsLive(b.tasks, id);
    }
    assert b'.tasks == Restrict(full.tasks, b'.tasks.Keys);
  }

  lemma OverlayNothing(db: Tables)
    ensures Overlay(db, EMPTY_TABLES) == db
  {
    PlusNothing(db.exchanges);
    PlusNothing(db.messages);
    PlusNothing(db.proposals);
    PlusNothing(db.artifacts);
    PlusNothing(db.validations);
    PlusNothing(db.auditEvents);
    PlusNothing(db.workers);
    PlusNothing(db.tasks);
    PlusNothing(db.tombstones);
  }

  lemma OverlayTask(base: Tables, hot: Tables, id: Id, row: Task)
    ensures Overlay(base, hot.(tasks := hot.tasks[id := row]))
         == Overlay(base, hot).(tasks := Overlay(base, hot).tasks[id := row])
  {
    PlusUpdate(base.tasks, hot.tasks, id, row);
  }

  lemma OverlayExchange(base: Tables, hot: Tables, id: Id, row: Exchange)
    ensures Overlay(base, hot.(exchanges := hot.exchanges[id := row]))
         == Overlay(base, hot).(exchanges := Overlay(base, hot).exchanges[id := row])
  {
    PlusUpdate(base.exchanges, hot.exchanges, id, row);
  }

  lemma OverlayWorker(base: Tables, hot: Tables, id: Id, row: Worker)
    ensures Overlay(base, hot.(workers := hot.workers[id := row]))
         == Overlay(base, hot).(workers := Overlay(base, hot).workers[id := row])
  {
    PlusUpdate(base.workers, hot.workers, id, row);
  }

  lemma OverlayAudit(base: Tables, hot: Tables, id: Id, row: AuditEvent)
    ensures Overlay(base, hot.(auditEvents := hot.auditEvents[id := row]))
         == Overlay(base, hot).(auditEvents := Overlay(base, hot).auditEvents[id := row])
  {
    PlusUpdate(base.auditEvents, hot.auditEvents, id, row);
  }

  lemma OverlayTombstone(base: Tables, hot: Tables, id: Id, row: Tombstone)
    ensures Overlay(base, hot.(tombstones := hot.tombstones[id := row]))
         == Overlay(base, hot).(tombstones := Overlay(base, hot).tombstones[id := row])
  {
    PlusUpdate(base.tombstones, hot.tombstones, id, row);
  }

  predicate HasRows(t: Tables)
    ensures HasRows(t) <==> t != EMPTY_TABLES
  {
    t.exchanges != map[] || t.messages != map[] || t.proposals != map[] || t.artifacts != map[]
    || t.validations != map[] || t.tasks != map[] || t.tombstones != map[] || t.auditEvents != map[]
    || t.workers != map[]
  }

  lemma PrunedFromItself(b: Book)
    ensures IsPruned(b, b)
  {
    assert b.tasks == Restrict(b.tasks, b.tasks.Keys);
  }

  lemma PrunedKeepsSound(full: Book, b: Book, cap: nat)
    requires IsPruned(full, b)
    ensures Sound(full, cap) ==> Sound(b, cap)
  {
    if Sound(full, cap) {
      PruneKeepsSound(full, b, cap);
    }
  }

  /** The identifier of a creation request is live, or was never used. */
  ghost predicate HasNoPast(b: Book, r: CreateRequest, newId: Id) {
    (r.id.GetOr(newId) in b.tasks || r.id.GetOr(newId) !in b.trail) && (r.id.None? ==> newId !in b.tasks)
  }

  /** A command followed by any retention pass keeps the invariant. */
  lemma CommandThenPrune(b0: Book, id: Id, c: Command, cfg: Config, workers: map<Id, Worker>, now: int)
    ensures forall b ::
      (Sound(b0, cfg.maxRequeueAttempts) && IsPruned(DoCommand(b0, id, c, cfg, workers, now).book, b)
       ==> Sound(b, cfg.maxRequeueAttempts))
  {
    var s := DoCommand(b0, id, c, cfg, workers, now);
    forall b | Sound(b0, cfg.maxRequeueAttempts) && IsPruned(s.book, b) ensures Sound(b, cfg.maxRequeueAttempts) {
      CommandKeepsSound(b0, id, c, cfg, workers, now);
      PruneKeepsSound(s.book, b, cfg.maxRequeueAttempts);
    }
  }

  lemma NoteThenPrune(b0: Book, id: Id, n: Note, now: int, cap: nat)
    ensures forall b :: (Sound(b0, cap) && IsPruned(DoNote(b0, id, n, now).book, b) ==> Sound(b, cap))
  {
    hide DoNote, Sound, IsPruned;
    forall b | Sound(b0, cap) && IsPruned(DoNote(b0, id, n, now).book, b) ensures Sound(b, cap) {
      NoteKeepsSound(b0, id, n, now, cap);
      PruneKeepsSound(DoNote(b0, id, n, now).book, b, cap);
    }
  }

  /** A creation followed by any retention pass keeps it too, if the identifier has no past. */
  lemma CreateThenPrune(b0: Book, r: CreateRequest, newId: Id, metadataHolds: bool, cfg: Config, db: Tables, now: int)
    ensures forall b ::
      (Sound(b0, cfg.maxRequeueAttempts) && HasNoPast(b0, r, newId)
       && IsPruned(DoCreate(b0, r, newId, metadataHolds, cfg, db, now).book, b)
       ==> Sound(b, cfg.maxRequeueAttempts))
  {
    hide DoCreate;
    var s := DoCreate(b0, r, newId, metadataHolds, cfg, db, now);
    forall b | Sound(b0, cfg.maxRequeueAttempts) && HasNoPast(b0, r, newId) && IsPruned(s.book, b)
      ensures Sound(b, cfg.maxRequeueAttempts)
    {
      CreateKeepsSound(b0, r, newId, metadataHolds, cfg, db, now);
      PruneKeepsSound(s.book, b, cfg.maxRequeueAttempts);
    }
  }

  /** A tombstone written after a retention pass. */
  lemma BuryAfterPrune(full: Book, b: Book, b': Book, id: Id, reason: TombstoneReason, now: int)
    requires IsPruned(full, b) && id in full.tasks
    requires b' == Book(b.tasks, b.tombstones[id := TombstoneOf(full.tasks[id], reason, now)],
                        b.trail[id := TrailOf(b, id) + [TaskTombstoned]])
    ensures IsPruned(Bury(full, id, reason, now), b')
  {
    hide TombstoneOf;
  }

  lemma RejectThenPrune(b0: Book, id: Id, actor: Option<Party>, approvalId: Id, asked: Option<OutcomeStatus>,
                        reason: string, now: int, cap: nat)
    ensures forall b ::
      (Sound(b0, cap) && IsPruned(DoReject(b0, id, actor, approvalId, asked, reason, now).book, b) ==> Sound(b, cap))
  {
    hide DoReject;
    var s := DoReject(b0, id, actor, approvalId, asked, reason, now);
    forall b | Sound(b0, cap) && IsPruned(s.book, b) ensures Sound(b, cap) {
      RejectKeepsSound(b0, id, actor, approvalId, asked, reason, now, cap);
      PruneKeepsSound(s.book, b, cap);
    }
  }

  lemma SweepThenPrune(b0: Book, olderThanMs: nat, staleWorkers: set<Id>, cap: nat, nowMs: int)
    ensures forall b ::
      (Sound(b0, cap) && IsPruned(DoSweep(b0, olderThanMs, staleWorkers, cap, nowMs), b) ==> Sound(b, cap))
  {
    hide DoSweep;
    var s := DoSweep(b0, olderThanMs, staleWorkers, cap, nowMs);
    forall b | Sound(b0, cap) && IsPruned(s, b) ensures Sound(b, cap) {
      SweepKeepsSound(b0, olderThanMs, staleWorkers, cap, nowMs);
      PruneKeepsSound(s, b, cap);
    }
  }

  /** One more audit row, written after a retention pass. */
  lemma LateRowAfterPrune(full: Book, b: Book, b': Book, id: Id)
    requires IsPruned(full, b)
    requires b' == b.(trail := b.trail[id := TrailOf(b, id) + [TaskApprovalRejected]])
    ensures IsPruned(full.(trail := full.trail[id := TrailOf(full, id) + [TaskApprovalRejected]]), b')
  {
  }

  /** The sweep handles its tasks one at a time. */
  lemma SweepOne(b: Book, done: set<Id>, id: Id, cap: nat, nowMs: int)
    requires done <= b.tasks.Keys && id in b.tasks && id !in done
    ensures var s := SweepAll(b, done, cap, nowMs);
      var t := b.tasks[id];
      id in s.tasks && s.tasks[id] == t
      && SweepAll(b, done + {id}, cap, nowMs) ==
        if IsExhausted(t, cap)
        then Bury(Commit(s, id, DeadLetteredTask(t, cap, nowMs), [TaskFailed]), id, TombDeadLettered, nowMs)
        else Commit(s, id, RequeuedTask(t, nowMs), [TaskRequeued])
  {
    hide TombstoneOf, DeadLetteredTask, RequeuedTask, IsExhausted, SweptTombstones, SweptTrail;
    SweepOneTombstone(b, done, id, cap, nowMs);
    SweepOneTrail(b, done, id, cap);
  }

  lemma SweepOneTombstone(b: Book, done: set<Id>, id: Id, cap: nat, nowMs: int)
    requires done <= b.tasks.Keys && id in b.tasks && id !in done
    ensures SweptTombstones(b, done + {id}, cap, nowMs) ==
      if IsExhausted(b.tasks[id], cap)
      then SweptTombstones(b, done, cap, nowMs)[
        id := TombstoneOf(DeadLetteredTask(b.tasks[id], cap, nowMs), TombDeadLettered, nowMs)]
      else SweptTombstones(b, done, cap, nowMs)
  {
    hide TombstoneOf, DeadLetteredTask, IsExhausted;
  }

  lemma SweepOneTrail(b: Book, done: set<Id>, id: Id, cap: nat)
    requires done <= b.tasks.Keys && id in b.tasks && id !in done
    ensures var before := SweptTrail(b, done, cap);
      (if id in before then before[id] else []) == TrailOf(b, id)
      && SweptTrail(b, done + {id}, cap) ==
        if IsExhausted(b.tasks[id], cap)
        then before[id := TrailOf(b, id) + [TaskFailed]][id := TrailOf(b, id) + [TaskFailed] + [TaskTombstoned]]
        else before[id := TrailOf(b, id) + [TaskRequeued]]
  {
    hide IsExhausted;
    assert TrailOf(b, id) + [TaskFailed] + [TaskTombstoned] == TrailOf(b, id) + [TaskFailed, TaskTombstoned];
  }

  function ThresholdMs(olderThanMs: int): nat {
    if olderThanMs < 0 then 0 else olderThanMs
  }

  /** An offline limit of zero counts as absent. */
  function StaleWorkers(workers: map<Id, Worker>, offlineAfterMs: Option<int>, nowMs: int): set<Id> {
    if offlineAfterMs.Some? && offlineAfterMs.value > 0
    then set w | w in workers && workers[w].lastSeenAt.Some?
           && nowMs - workers[w].lastSeenAt.value > offlineAfterMs.value
    else {}
  }

  /** A heartbeat whose audit row was sampled away, followed by any retention pass. */
  lemma SilentHeartbeat(b0: Book, id: Id, worker: Id, cfg: Config, workers: map<Id, Worker>, now: int)
    ensures var silent := DoSilentHeartbeat(b0, id, worker, cfg, workers, now);
      forall b ::
      (Sound(b0, cfg.maxRequeueAttempts) && IsPruned(silent, b) ==> Sound(b, cfg.maxRequeueAttempts))
  {
    hide DoSilentHeartbeat, IsPruned, Sound;
    var silent := DoSilentHeartbeat(b0, id, worker, cfg, workers, now);
    forall b | Sound(b0, cfg.maxRequeueAttempts) && IsPruned(silent, b) ensures Sound(b, cfg.maxRequeueAttempts) {
      SilentHeartbeatKeepsSound(b0, id, worker, cfg, workers, now);
      PruneKeepsSound(silent, b, cfg.maxRequeueAttempts);
    }
  }

  /** A worker seen just now is never pruned. */
  lemma SeenWorkerStays(db: Tables, p: Retention.Policy, now: int, w: Id)
    requires w in db.workers && db.workers[w].lastSeenAt == Some(now)
    ensures w in Retention.Retain(db, p, now).workers
  {
    hide Retention.Retain;
    Retention.LostWorkers(db, p, now, w);
  }

  lemma FirstEntry(b: Book, before: map<Id, seq<AuditAction>>, id: Id)
    ensures b.trail == before[id := []] ==> b.trail[id := TrailOf(b, id) + [TaskCreated]] == before[id := [TaskCreated]]
  {
    assert b.trail == before[id := []] ==> TrailOf(b, id) + [TaskCreated] == [TaskCreated];
  }

  class InMemoryBroker {
    const cfg: Config
    const policy: Retention.Policy
    const heartbeatAuditSampleIntervalMs: nat
    const workerHeartbeatPersistIntervalMs: nat
    /** Whether the store can upsert single rows. */
    const hotSave: bool

    var live: Tables
    var pendingHot: Tables
    var lastFullRetentionPersistAtMs: int
    var lastPersistedTaskHeartbeatAuditAtMs: map<Id, int>
    var lastPersistedWorkerHeartbeatAtMs: map<Id, int>

    /** What a reader of the store would find. */
    ghost var durable: Tables
    /** Every task audit row ever appended. */
    ghost var trail: map<Id, seq<AuditAction>>

    /** Nothing is lost if the rows still pending reach the store. */
    ghost predicate Valid()
      reads this
    {
      Overlay(durable, pendingHot) == live
    }

    ghost function BookNow(): Book
      reads this
    {
      Book(live.tasks, live.tombstones, trail)
    }

    constructor (cfg: Config, policy: Retention.Policy, heartbeatSample: nat, workerPersist: nat, hotSave: bool,
                 now: int)
      ensures Valid() && BookNow() == EMPTY_BOOK && live == EMPTY_TABLES
      ensures Sound(BookNow(), cfg.maxRequeueAttempts)
      ensures this.cfg == cfg && this.policy == policy && this.hotSave == hotSave
    {
      this.cfg := cfg;
      this.policy := policy;
      this.heartbeatAuditSampleIntervalMs := heartbeatSample;
      this.workerHeartbeatPersistIntervalMs := workerPersist;
      this.hotSave := hotSave;
      live, pendingHot, durable := EMPTY_TABLES, EMPTY_TABLES, EMPTY_TABLES;
      lastFullRetentionPersistAtMs := now;
      lastPersistedTaskHeartbeatAuditAtMs, lastPersistedWorkerHeartbeatAtMs := map[], map[];
      trail := map[];
    }

    // ----- rows -----

    method SetTaskRecord(id: Id, task: Task)
      requires Valid()
      modifies this`live, this`pendingHot
      ensures Valid() && live == old(live).(tasks := old(live).tasks[id := task])
      ensures pendingHot == old(pendingHot).(tasks := old(pendingHot).tasks[id := task])
    {
      hide Overlay;
      OverlayTask(durable, pendingHot, id, task);
      live := live.(tasks := live.tasks[id := task]);
      pendingHot := pendingHot.(tasks := pendingHot.tasks[id := task]);
    }

    method SetExchangeRecord(id: Id, exchange: Exchange)
      requires Valid()
      modifies this`live, this`pendingHot
      ensures Valid() && live == old(live).(exchanges := old(live).exchanges[id := exchange])
    {
      hide Overlay;
      OverlayExchange(durable, pendingHot, id, exchange);
      live := live.(exchanges := live.exchanges[id := exchange]);
      pendingHot := pendingHot.(exchanges := pendingHot.exchanges[id := exchange]);
    }

    method SetWorkerRecord(id: Id, worker: Worker)
      requires Valid()
      modifies this`live, this`pendingHot
      ensures Valid() && live == old(live).(workers := old(live).workers[id := worker])
      ensures id in pendingHot.workers
    {
      hide Overlay;
      OverlayWorker(durable, pendingHot, id, worker);
      live := live.(workers := live.workers[id := worker]);
      pendingHot := pendingHot.(workers := pendingHot.workers[id := worker]);
    }

    /** Heartbeats of one worker or task share one audit row; every other row is new. */
    method AppendAuditEvent(actorId: Id, action: AuditAction, targetType: TargetType, targetId: Id,
                            proposalId: Option<Id>, now: int)
      requires Valid()
      modifies this`live, this`pendingHot, this`trail
      ensures Valid() && live == old(live).(auditEvents := live.auditEvents)
      ensures exists id: Id ::
        live.auditEvents == old(live).auditEvents[
          id := AuditEvent(actorId, action, targetType, targetId, proposalId, Some(now))]
        && (id in old(live).auditEvents ==> Retention.IsHeartbeat(live.auditEvents[id]))
      ensures pendingHot == old(pendingHot).(auditEvents := pendingHot.auditEvents)
      ensures trail == if targetType == OnTask
        then old(trail)[targetId := TrailOf(old(BookNow()), targetId) + [action]] else old(trail)
    {
      hide Overlay;
      var event := AuditEvent(actorId, action, targetType, targetId, proposalId, Some(now));
      var id := FreshId(live.auditEvents.Keys);
      id := HeartbeatRow(action, targetType, targetId, 3 * id);
      assert id in live.auditEvents ==> Retention.IsHeartbeat(event);
      OverlayAudit(durable, pendingHot, id, event);
      live := live.(auditEvents := live.auditEvents[id := event]);
      pendingHot := pendingHot.(auditEvents := pendingHot.auditEvents[id := event]);
      if targetType == OnTask {
        trail := trail[targetId := TrailOf(BookNow(), targetId) + [action]];
      }
      assert live.auditEvents == old(live).auditEvents[id := event];
    }

    /** The fixed row of a heartbeat, or the given fresh row. */
    static function HeartbeatRow(action: AuditAction, targetType: TargetType, targetId: Id, freshRow: Id): Id {
      if action == WorkerHeartbeat && targetType == OnWorker then 3 * targetId + 1
      else if action == TaskHeartbeat && targetType == OnTask then 3 * targetId + 2
      else freshRow
    }

    // ----- persistence -----

    ghost predicate IsHotPath(now: int)
      reads this
    {
      hotSave && HasRows(pendingHot) && now - lastFullRetentionPersistAtMs < HOT_PERSIST_FULL_RETENTION_INTERVAL_MS
    }

    /** Upserts the pending rows, or prunes and replaces the whole durable copy.
        On both paths the durable copy ends up equal to the live tables. */
    method PersistState(now: int)
      requires Valid()
      modifies this`live, this`pendingHot, this`durable, this`lastFullRetentionPersistAtMs
      ensures Valid() && pendingHot == EMPTY_TABLES && durable == live
      ensures live == if old(IsHotPath(now)) then old(live) else Retention.Retain(old(live), policy, now)
      ensures lastFullRetentionPersistAtMs == if old(IsHotPath(now)) then old(lastFullRetentionPersistAtMs) else now
      ensures IsPruned(old(BookNow()), BookNow())
      ensures KeptRows(old(live).exchanges, old(live).workers, live)
    {
      hide Retention.Retain, Overlay, HasRows, KeptRows, IsPruned;
      RetainKeepsRows(live, policy, now);
      RowsOfItself(live);
      PrunedFromItself(BookNow());
      if hotSave && HasRows(pendingHot)
         && now - lastFullRetentionPersistAtMs < HOT_PERSIST_FULL_RETENTION_INTERVAL_MS
      {
        durable := Overlay(durable, pendingHot);
        pendingHot := EMPTY_TABLES;
      } else {
        RetainPrunesTasks(live, policy, now, trail);
        live := Retention.ApplyRetention(live, policy, now);
        lastFullRetentionPersistAtMs := now;
        durable := live;
        pendingHot := EMPTY_TABLES;
      }
      OverlayNothing(live);
    }

    /** The tombstone and its audit row stay pending until the next persist. */
    method WriteTombstone(id: Id, task: Task, reason: TombstoneReason, actorId: Id, now: int)
      requires Valid()
      modifies this`live, this`pendingHot, this`trail
      ensures Valid()
      ensures BookNow() == Book(old(live).tasks, old(live).tombstones[id := TombstoneOf(task, reason, now)],
                                old(trail)[id := TrailOf(old(BookNow()), id) + [TaskTombstoned]])
      ensures id in pendingHot.tombstones
      ensures live == old(live).(tombstones := live.tombstones, auditEvents := live.auditEvents)
    {
      hide Overlay, TombstoneOf;
      var tombstone := TombstoneOf(task, reason, now);
      OverlayTombstone(durable, pendingHot, id, tombstone);
      live := live.(tombstones := live.tombstones[id := tombstone]);
      pendingHot := pendingHot.(tombstones := pendingHot.tombstones[id := tombstone]);
      AppendAuditEvent(actorId, TaskTombstoned, OnTask, id, task.proposalId, now);
    }

    /** Mirrors a task into its exchange, if that exchange is known. */
    method SyncExchangeStateFromTask(id: Id, task: Task, nextStatus: ExchangeStatus, now: int)
      requires Valid()
      modifies this`live, this`pendingHot
      ensures Valid() && live == old(live).(exchanges := Synced(old(live).exchanges, id, task, Some(nextStatus), now))
    {
      hide Overlay;
      if task.exchangeId.Some? && task.exchangeId.value in live.exchanges {
        var e := Mirrored(live.exchanges[task.exchangeId.value], id, task, now);
        SetExchangeRecord(task.exchangeId.value, e.(status := nextStatus));
      }
    }

    /** Linking a new task is the same without a status change. */
    method LinkTaskToExchange(id: Id, task: Task, now: int)
      requires Valid()
      modifies this`live, this`pendingHot
      ensures Valid() && live == old(live).(exchanges := Synced(old(live).exchanges, id, task, None, now))
    {
      hide Overlay;
      if task.exchangeId.Some? && task.exchangeId.value in live.exchanges {
        SetExchangeRecord(task.exchangeId.value, Mirrored(live.exchanges[task.exchangeId.value], id, task, now));
      }
    }

    // ----- task operations -----

    /** The common tail of a task mutation: row, exchange, audit row, persist. */
    method CommitTask(id: Id, task: Task, exchangeStatus: Option<ExchangeStatus>, actorId: Id, action: AuditAction,
                      now: int)
      requires Valid()
      modifies this`live, this`pendingHot, this`durable, this`lastFullRetentionPersistAtMs, this`trail
      ensures Valid() && durable == live
      ensures IsPruned(Commit(old(BookNow()), id, task, [action]), BookNow())
      ensures KeptRows(
        if exchangeStatus.Some? then Synced(old(live).exchanges, id, task, exchangeStatus, now)
        else old(live).exchanges,
        old(live).workers, live)
    {
      hide Overlay, Retention.Retain, IsPruned, Synced, KeptRows;
      SetTaskRecord(id, task);
      if exchangeStatus.Some? {
        SyncExchangeStateFromTask(id, task, exchangeStatus.value, now);
      }
      AppendAuditEvent(actorId, action, OnTask, id, task.proposalId, now);
      assert BookNow() == Commit(old(BookNow()), id, task, [action]);
      PersistState(now);
    }

    /** The rows of a new task; its history starts afresh. */
    method WriteNewTask(id: Id, task: Task, now: int)
      requires Valid()
      modifies this`live, this`pendingHot, this`trail
      ensures Valid()
      ensures live.tasks == old(live).tasks[id := task] && live.tombstones == old(live).tombstones
      ensures live.exchanges == Synced(old(live).exchanges, id, task, None, now) && live.workers == old(live).workers
      ensures trail == old(trail)[id := [TaskCreated]]
    {
      hide Overlay, Synced, TrailOf, Retention.IsHeartbeat;
      ghost var before := trail;
      SetTaskRecord(id, task);
      if task.exchangeId.Some? {
        LinkTaskToExchange(id, task, now);
      } else {
        NoExchangeToSync(live.exchanges, id, task, now);
      }
      trail := trail[id := []];
      FirstEntry(BookNow(), before, id);
      AppendAuditEvent(task.requester.id, TaskCreated, OnTask, id, task.proposalId, now);
    }

    method StoreNewTask(id: Id, task: Task, now: int)
      requires Valid()
      modifies this`live, this`pendingHot, this`durable, this`lastFullRetentionPersistAtMs, this`trail
      ensures Valid()
      ensures IsPruned(old(BookNow()).(tasks := old(live).tasks[id := task], trail := old(trail)[id := [TaskCreated]]),
                       BookNow())
      ensures KeptRows(Synced(old(live).exchanges, id, task, None, now), old(live).workers, live)
    {
      hide Overlay, Retention.Retain, IsPruned, KeptRows, Synced;
      WriteNewTask(id, task, now);
      PersistState(now);
    }

    method CreateTask(request: CreateRequest, newId: Id, metadataHolds: bool, now: int)
      returns (r: Result<Task, BrokerError>)
      requires Valid()
      modifies this
      ensures Valid()
      ensures var s := DoCreate(old(BookNow()), request, newId, metadataHolds, cfg, old(live), now);
        r == s.result && IsPruned(s.book, BookNow())
      ensures Sound(old(BookNow()), cfg.maxRequeueAttempts) && HasNoPast(old(BookNow()), request, newId)
        ==> Sound(BookNow(), cfg.maxRequeueAttempts)
      ensures r.Err? || (request.id.Some? && request.id.value in old(live).tasks) ==> live == old(live)
      ensures r.Ok? && !(request.id.Some? && request.id.value in old(live).tasks) ==>
        KeptRows(Synced(old(live).exchanges, request.id.GetOr(newId), r.value, None, now), old(live).workers, live)
    {
      hide Overlay, Retention.Retain, Sound, LinkObjection, NormalizeContext, IsPruned, HasNoPast, KeptRows, Synced;
      PrunedFromItself(BookNow());
      CreateThenPrune(BookNow(), request, newId, metadataHolds, cfg, live, now);
      var objection := CreateObjection(request, metadataHolds);
      if objection.Some? {
        return Err(objection.value);
      }
      if request.id.Some? && request.id.value in live.tasks {
        return Ok(live.tasks[request.id.value]);
      }
      var link := LinkObjection(request, live);
      if link.Some? {
        return Err(link.value);
      }
      var id := request.id.GetOr(newId);
      var task := NewTask(request, cfg, now);
      StoreNewTask(id, task, now);
      r := Ok(task);
    }

    method ClaimTask(taskId: Id, workerId: Id, attemptId: Id, now: int) returns (r: Result<Task, BrokerError>)
      requires Valid()
      modifies this
      ensures Valid()
      ensures Follows(old(BookNow()), taskId, Claim(workerId, attemptId), old(live.workers), now, r)
      ensures ExchangesFollow(old(live), taskId, Claim(workerId, attemptId), now)
    {
      hide Overlay, Retention.Retain, IsPruned, Sound, KeptRows, Synced;
      hide RunStart, RunComplete, RunFail, RunHeartbeat, RunApprove, RunReassign, Bury, Commit;
      RowsOfItself(live);
      CommandThenPrune(BookNow(), taskId, Claim(workerId, attemptId), cfg, live.workers, now);
      PrunedFromItself(BookNow());
      if taskId !in live.tasks { return Err(NotFound); }
      var task := live.tasks[taskId];
      var objection := WorkerObjection(task, cfg, live.workers, workerId);
      if objection.Some? { return Err(objection.value); }
      if task.RequiresApproval() && task.approval.None? { return Err(PolicyDenied); }
      if task.status != Queued { return Err(InvalidTransition); }
      task := task.(status := Claimed, attemptId := Some(attemptId), claimedBy := Some(workerId),
                    claimedAt := Some(now), updatedAt := Some(now));
      CommitTask(taskId, task, Some(ExchangeRunning), workerId, TaskClaimed, now);
      r := Ok(task);
    }

    method StartTask(taskId: Id, workerId: Id, now: int) returns (r: Result<Task, BrokerError>)
      requires Valid()
      modifies this
      ensures Valid()
      ensures Follows(old(BookNow()), taskId, Start(workerId), old(live.workers), now, r)
      ensures ExchangesFollow(old(live), taskId, Start(workerId), now)
    {
      hide Overlay, Retention.Retain, IsPruned, Sound, KeptRows, Synced;
      hide RunClaim, RunComplete, RunFail, RunHeartbeat, RunApprove, RunReassign, Bury, Commit;
      RowsOfItself(live);
      CommandThenPrune(BookNow(), taskId, Start(workerId), cfg, live.workers, now);
      PrunedFromItself(BookNow());
      if taskId !in live.tasks { return Err(NotFound); }
      var task := live.tasks[taskId];
      var objection := WorkerObjection(task, cfg, live.workers, workerId);
      if objection.Some? { return Err(objection.value); }
      if task.status != Claimed { return Err(InvalidTransition); }
      task := task.(status := Running, updatedAt := Some(now));
      CommitTask(taskId, task, Some(ExchangeRunning), workerId, TaskStarted, now);
      r := Ok(task);
    }

    /** Proposal side effects of a completion are not modelled; the caller says
        whether the completion evidence holds. */
    method CompleteTask(taskId: Id, workerId: Id, result: TaskResult, evidenceHolds: bool, now: int)
      returns (r: Result<Task, BrokerError>)
      requires Valid()
      modifies this
      ensures Valid()
      ensures Follows(old(BookNow()), taskId, Complete(workerId, result, evidenceHolds), old(live.workers), now, r)
      ensures ExchangesFollow(old(live), taskId, Complete(workerId, result, evidenceHolds), now)
    {
      hide Overlay, Retention.Retain, IsPruned, Sound, KeptRows, Synced;
      hide RunClaim, RunStart, RunFail, RunHeartbeat, RunApprove, RunReassign, Bury, Commit;
      RowsOfItself(live);
      CommandThenPrune(BookNow(), taskId, Complete(workerId, result, evidenceHolds), cfg, live.workers, now);
      PrunedFromItself(BookNow());
      if taskId !in live.tasks { return Err(NotFound); }
      var task := live.tasks[taskId];
      var objection := WorkerObjection(task, cfg, live.workers, workerId);
      if objection.Some? { return Err(objection.value); }
      if IsTerminalTask(task.status) { return Ok(task); }
      if task.status != Claimed && task.status != Running { return Err(InvalidTransition); }
      if !evidenceHolds { return Err(EvidenceMissing); }
      task := task.(status := Succeeded, claimedBy := Some(workerId), updatedAt := Some(now), completedAt := Some(now),
                    result := Some(result), error := None,
                    artifactIds := task.artifactIds + result.artifactIds + result.validationArtifactIds
                                   + result.applyArtifactIds);
      CommitTask(taskId, task, Some(ExchangeCompleted), workerId, TaskSucceeded, now);
      r := Ok(task);
    }

    method FailTask(taskId: Id, workerId: Id, message: string, now: int) returns (r: Result<Task, BrokerError>)
      requires Valid()
      modifies this
      ensures Valid()
      ensures Follows(old(BookNow()), taskId, Fail(workerId, message), old(live.workers), now, r)
      ensures ExchangesFollow(old(live), taskId, Fail(workerId, message), now)
    {
      hide Overlay, Retention.Retain, IsPruned, Sound, KeptRows, Synced;
      hide RunClaim, RunStart, RunComplete, RunHeartbeat, RunApprove, RunReassign, Bury, Commit;
      RowsOfItself(live);
      CommandThenPrune(BookNow(), taskId, Fail(workerId, message), cfg, live.workers, now);
      PrunedFromItself(BookNow());
      if taskId !in live.tasks { return Err(NotFound); }
      var task := live.tasks[taskId];
      var objection := WorkerObjection(task, cfg, live.workers, workerId);
      if objection.Some? { return Err(objection.value); }
      if IsTerminalTask(task.status) { return Ok(task); }
      if task.status != Claimed && task.status != Running { return Err(InvalidTransition); }
      task := task.(status := Failed, claimedBy := Some(workerId), updatedAt := Some(now), completedAt := Some(now),
                    error := Some(WorkerError(if message == "" then "task failed" else message)));
      StoreFailure(taskId, task, workerId, now);
      r := Ok(task);
    }

    /** The tombstone of a failed task is written after the persist. */
    method StoreFailure(id: Id, task: Task, workerId: Id, now: int)
      requires Valid()
      modifies this`live, this`pendingHot, this`durable, this`lastFullRetentionPersistAtMs, this`trail
      ensures Valid()
      ensures IsPruned(Bury(Commit(old(BookNow()), id, task, [TaskFailed]), id, TombFailed, now), BookNow())
      ensures KeptRows(Synced(old(live).exchanges, id, task, Some(ExchangeFailed), now), old(live).workers, live)
    {
      hide Overlay, Retention.Retain, IsPruned, KeptRows, Synced;
      ghost var full := Commit(BookNow(), id, task, [TaskFailed]);
      CommitTask(id, task, Some(ExchangeFailed), workerId, TaskFailed, now);
      ghost var kept, rows := BookNow(), live;
      WriteTombstone(id, task, TombFailed, workerId, now);
      SameRows(Synced(old(live).exchanges, id, task, Some(ExchangeFailed), now), old(live).workers, rows, live);
      BuryAfterPrune(full, kept, BookNow(), id, TombFailed, now);
    }

    /** Audit rows of task heartbeats are sampled; the row itself is always written. */
    method HeartbeatTask(taskId: Id, workerId: Id, now: int) returns (r: Result<Task, BrokerError>)
      requires Valid()
      modifies this
      ensures Valid()
      ensures var s := DoCommand(old(BookNow()), taskId, Heartbeat(workerId), cfg, old(live.workers), now);
        r == s.result
        && (IsPruned(s.book, BookNow())
            || IsPruned(DoSilentHeartbeat(old(BookNow()), taskId, workerId, cfg, old(live.workers), now), BookNow()))
        && (Sound(old(BookNow()), cfg.maxRequeueAttempts) ==> Sound(BookNow(), cfg.maxRequeueAttempts))
      ensures ExchangesFollow(old(live), taskId, Heartbeat(workerId), now)
    {
      hide Overlay, Retention.Retain, IsPruned, Sound, KeptRows, Synced;
      hide RunClaim, RunStart, RunComplete, RunFail, RunApprove, RunReassign, Bury;
      RowsOfItself(live);
      CommandThenPrune(BookNow(), taskId, Heartbeat(workerId), cfg, live.workers, now);
      SilentHeartbeat(BookNow(), taskId, workerId, cfg, live.workers, now);
      PrunedFromItself(BookNow());
      if taskId !in live.tasks { return Err(NotFound); }
      var task := live.tasks[taskId];
      var objection := WorkerObjection(task, cfg, live.workers, workerId);
      if objection.Some? { return Err(objection.value); }
      if task.status != Claimed && task.status != Running { return Err(InvalidTransition); }
      task := task.(lastHeartbeatAt := Some(now), updatedAt := Some(now));
      StoreHeartbeat(taskId, task, workerId, now);
      r := Ok(task);
    }

    method StoreHeartbeat(id: Id, task: Task, workerId: Id, now: int)
      requires Valid()
      modifies this
      ensures Valid()
      ensures IsPruned(Commit(old(BookNow()), id, task, [TaskHeartbeat]), BookNow())
        || IsPruned(old(BookNow()).(tasks := old(live).tasks[id := task]), BookNow())
      ensures KeptRows(old(live).exchanges, old(live).workers, live)
    {
      hide Overlay, Retention.Retain, IsPruned, KeptRows;
      var last := if id in lastPersistedTaskHeartbeatAuditAtMs then lastPersistedTaskHeartbeatAuditAtMs[id] else 0;
      if heartbeatAuditSampleIntervalMs == 0 || now - last >= heartbeatAuditSampleIntervalMs {
        lastPersistedTaskHeartbeatAuditAtMs := lastPersistedTaskHeartbeatAuditAtMs[id := now];
        CommitTask(id, task, None, workerId, TaskHeartbeat, now);
      } else {
        StoreQuietly(id, task, now);
      }
    }

    method ApproveTask(taskId: Id, actor: Option<Party>, approvalId: Id, now: int)
      returns (r: Result<Task, BrokerError>)
      requires Valid()
      modifies this
      ensures Valid()
      ensures Follows(old(BookNow()), taskId, Approve(actor, approvalId), old(live.workers), now, r)
      ensures ExchangesFollow(old(live), taskId, Approve(actor, approvalId), now)
    {
      hide Overlay, Retention.Retain, IsPruned, Sound, KeptRows, Synced;
      hide RunClaim, RunStart, RunComplete, RunFail, RunHeartbeat, RunReassign, Bury, Commit;
      RowsOfItself(live);
      CommandThenPrune(BookNow(), taskId, Approve(actor, approvalId), cfg, live.workers, now);
      PrunedFromItself(BookNow());
      if taskId !in live.tasks { return Err(NotFound); }
      var task := live.tasks[taskId];
      if actor.None? { return Err(BadRequest); }
      if !IsPrivileged(actor.value) { return Err(PolicyDenied); }
      if !task.RequiresApproval() { return Err(InvalidTransition); }
      if task.approval.Some? { return Ok(task); }
      if IsTerminalTask(task.status) { return Err(InvalidTransition); }
      if task.status != Blocked && task.status != Queued { return Err(InvalidTransition); }
      task := task.(approval := Some(Approval(approvalId, now, actor.value.id)),
                    approvalOutcome := Some(ApprovalOutcome(Approved, approvalId, now, actor.value.id)),
                    status := Queued, updatedAt := Some(now));
      CommitTask(taskId, task, Some(ExchangeQueued), actor.value.id, TaskApproved, now);
      r := Ok(task);
    }

    method ReassignTask(taskId: Id, actor: Option<Party>, targetNodeId: Option<Id>, assignedWorkerId: Option<Id>,
                        now: int)
      returns (r: Result<Task, BrokerError>)
      requires Valid()
      modifies this
      ensures Valid()
      ensures Follows(old(BookNow()), taskId, Reassign(actor, targetNodeId, assignedWorkerId), old(live.workers), now,
                      r)
      ensures ExchangesFollow(old(live), taskId, Reassign(actor, targetNodeId, assignedWorkerId), now)
    {
      hide Overlay, Retention.Retain, IsPruned, Sound, KeptRows, Synced;
      hide RunClaim, RunStart, RunComplete, RunFail, RunHeartbeat, RunApprove, Bury, Commit;
      RowsOfItself(live);
      CommandThenPrune(BookNow(), taskId, Reassign(actor, targetNodeId, assignedWorkerId), cfg, live.workers, now);
      PrunedFromItself(BookNow());
      if taskId !in live.tasks { return Err(NotFound); }
      var task := live.tasks[taskId];
      if actor.None? { return Err(BadRequest); }
      if !IsPrivileged(actor.value) { return Err(PolicyDenied); }
      if IsTerminalTask(task.status) { return Err(InvalidTransition); }
      var nextTarget := targetNodeId.GetOr(task.targetNodeId);
      var nextWorker := assignedWorkerId.GetOr(targetNodeId.GetOr(task.assignedWorkerId));
      if nextTarget !in live.workers || nextWorker !in live.workers { return Err(NotFound); }
      task := task.(targetNodeId := nextTarget, target := Party(nextTarget, Some(live.workers[nextTarget].role)),
                    assignedWorkerId := nextWorker,
                    status := if task.RequiresApproval() && task.approval.None? then Blocked else Queued,
                    claimedBy := None, claimedAt := None, completedAt := None, result := None, error := None,
                    requeueCount := 0, attemptId := None, updatedAt := Some(now));
      CommitTask(taskId, task, Some(ExchangeQueued), actor.value.id, TaskReassigned, now);
      r := Ok(task);
    }

    // ----- payload and wake -----

    method UpdateTaskPayload(taskId: Id, payload: Id, actor: Option<Party>, now: int)
      returns (r: Result<Task, BrokerError>)
      requires Valid()
      modifies this
      ensures Valid()
      ensures Notes(old(BookNow()), taskId, UpdatePayload(actor, payload), now, r)
      ensures KeptRows(old(live).exchanges, old(live).workers, live)
    {
      hide Overlay, Retention.Retain, IsPruned, Sound, KeptRows, Synced;
      RowsOfItself(live);
      NoteThenPrune(BookNow(), taskId, UpdatePayload(actor, payload), now, cfg.maxRequeueAttempts);
      PrunedFromItself(BookNow());
      if taskId !in live.tasks { return Err(NotFound); }
      var task := live.tasks[taskId];
      if actor.None? { return Err(BadRequest); }
      task := task.(payload := payload, updatedAt := Some(now));
      CommitTask(taskId, task, None, actor.value.id, TaskUpdated, now);
      r := Ok(task);
    }

    /** A plan with the key of the planned wake is a replay, which leaves no audit row. */
    method PlanAcceptedTaskWake(taskId: Id, hasSession: bool, key: Id, details: Id, now: int)
      returns (r: Result<Task, BrokerError>, shouldDispatch: bool, replayed: bool)
      requires Valid()
      modifies this
      ensures Valid()
      ensures Notes(old(BookNow()), taskId, PlanWake(hasSession, key, details), now, r)
      ensures KeptRows(old(live).exchanges, old(live).workers, live)
      ensures r.Ok? ==> r.value.wake.Some? && (shouldDispatch <==> r.value.wake.value.decision.None?)
      ensures r.Ok? ==> (replayed <==> old(live).tasks[taskId].wake.Some?)
    {
      hide Overlay, Retention.Retain, IsPruned, Sound, KeptRows, Synced;
      RowsOfItself(live);
      NoteThenPrune(BookNow(), taskId, PlanWake(hasSession, key, details), now, cfg.maxRequeueAttempts);
      PrunedFromItself(BookNow());
      shouldDispatch, replayed := false, false;
      if taskId !in live.tasks { r := Err(NotFound); return; }
      var task := live.tasks[taskId];
      if !hasSession { r := Err(BadRequest); return; }
      if IsTerminalTask(task.status) { r := Err(InvalidTransition); return; }
      if task.wake.Some? {
        var wake := task.wake.value;
        if wake.key != key { r := Err(InvalidTransition); return; }
        task := task.(wake := Some(wake.(replayCount := wake.replayCount + 1, updatedAt := now)));
        StoreQuietly(taskId, task, now);
        r, shouldDispatch, replayed := Ok(task), wake.decision.None?, true;
      } else {
        task := task.(wake := Some(Wake(key, details, None, now, now, 0)), updatedAt := Some(now));
        CommitTask(taskId, task, None, task.requester.id, TaskWakePlanned, now);
        r, shouldDispatch := Ok(task), true;
      }
    }

    method RecordTaskWakeDecision(taskId: Id, verdict: WakeVerdict, details: Id, now: int)
      returns (r: Result<Task, BrokerError>)
      requires Valid()
      modifies this
      ensures Valid()
      ensures Notes(old(BookNow()), taskId, DecideWake(verdict, details), now, r)
      ensures KeptRows(old(live).exchanges, old(live).workers, live)
    {
      hide Overlay, Retention.Retain, IsPruned, Sound, KeptRows, Synced;
      RowsOfItself(live);
      NoteThenPrune(BookNow(), taskId, DecideWake(verdict, details), now, cfg.maxRequeueAttempts);
      PrunedFromItself(BookNow());
      if taskId !in live.tasks { return Err(NotFound); }
      var task := live.tasks[taskId];
      if task.wake.None? { return Err(InvalidTransition); }
      var wake := task.wake.value;
      if wake.decision.Some? {
        return if wake.decision.value.verdict == verdict then Ok(task) else Err(InvalidTransition);
      }
      task := task.(wake := Some(wake.(decision := Some(WakeDecision(verdict, details, now)), updatedAt := now)),
                    updatedAt := Some(now));
      CommitTask(taskId, task, None, 0, TaskWakeDecided(verdict), now);
      r := Ok(task);
    }

    /** Writes a task without an audit row. */
    method StoreQuietly(id: Id, task: Task, now: int)
      requires Valid()
      modifies this`live, this`pendingHot, this`durable, this`lastFullRetentionPersistAtMs, this`trail
      ensures Valid() && durable == live
      ensures IsPruned(old(BookNow()).(tasks := old(live).tasks[id := task]), BookNow())
      ensures KeptRows(old(live).exchanges, old(live).workers, live)
    {
      hide Overlay, Retention.Retain, IsPruned, KeptRows;
      SetTaskRecord(id, task);
      PersistState(now);
    }

    // ----- cancellation -----

    /** Cancels one task: row, exchange, audit row, persist, tombstone. */
    method CancelTaskRecord(id: Id, actorId: Id, reason: Option<string>, source: Option<Id>, now: int)
      requires Valid() && id in live.tasks
      modifies this
      ensures Valid()
      ensures IsPruned(CancelAll(old(BookNow()), {id}, id, source, actorId, reason, now), BookNow())
      ensures Moved(old(live).exchanges, live.exchanges, old(live).tasks, {id}, {}, now)
      ensures LiveStay(old(live).exchanges, live.exchanges)
    {
      hide Overlay, Retention.Retain, IsPruned, KeptRows, Synced, Moved, LiveStay;
      ghost var b0 := BookNow();
      var task := CanceledTask(live.tasks[id], actorId, reason, source, now);
      CommitTask(id, task, Some(ExchangeQueued), actorId, TaskCanceled, now);
      ghost var kept := BookNow();
      MovedOne(old(live).exchanges, old(live).workers, live, b0.tasks, id, task, now);
      WriteTombstone(id, task, TombCanceled, actorId, now);
      BuryAfterPrune(Commit(b0, id, task, [TaskCanceled]), kept, BookNow(), id, TombCanceled, now);
      CancelOne(b0, id, source, actorId, reason, now);
    }

    /** Cancels a live task and, recursively, its live children. The visited set
        is the source's guard against cycles; the ghost result is the set of
        tasks this call canceled. */
    method CancelTaskTree(id: Id, actorId: Id, reason: Option<string>, source: Option<Id>, visited: set<Id>, now: int)
      returns (seen: set<Id>, ghost ids: set<Id>)
      requires Valid()
      requires forall v :: v in visited ==> v !in LiveIds(live.tasks)
      requires id !in visited ==> id in LiveIds(live.tasks)
      modifies this
      ensures Valid()
      ensures id in visited ==> ids == {} && BookNow() == old(BookNow())
      ensures id !in visited ==>
        id in ids && ids == CancelSet(old(live.tasks), id)
        && IsPruned(CancelAll(old(BookNow()), ids, id, source, actorId, reason, now), BookNow())
      ensures ids <= LiveIds(old(live.tasks))
      ensures seen == visited + ids
      ensures Moved(old(live).exchanges, live.exchanges, old(live).tasks, ids, {}, now)
      ensures LiveStay(old(live).exchanges, live.exchanges)
      decreases LiveIds(live.tasks)
    {
      hide Overlay, Retention.Retain, CancelAll, CancelSet, IsPruned, Moved, LiveStay, WalkInv;
      ghost var b0, es := BookNow(), live.exchanges;
      seen, ids := visited, {};
      MovedNothing(es, b0.tasks, now);
      if id in visited {
        return;
      }
      seen, ids := seen + {id}, {id};
      CancelTaskRecord(id, actorId, reason, source, now);
      var rest := set x | x in live.tasks && live.tasks[x].parentTaskId == Some(id);
      WalkStarts(b0, BookNow(), id, source, actorId, reason, now);
      while rest != {}
        invariant Valid()
        invariant ids <= LiveIds(b0.tasks) && id in ids && seen == visited + ids
        invariant IsPruned(CancelAll(b0, ids, id, source, actorId, reason, now), BookNow())
        invariant Moved(es, live.exchanges, b0.tasks, ids, {}, now) && LiveStay(es, live.exchanges)
        invariant WalkInv(b0.tasks, id, ids, rest)
        decreases rest
      {
        var child :| child in rest;
        SurvivorsOf(b0, ids, BookNow(), id, source, actorId, reason, now);
        if child in live.tasks && !IsTerminalTask(live.tasks[child].status) {
          ghost var b1, before, mid := BookNow(), ids, live.exchanges;
          ghost var more;
          ChildOfRoot(b0, ids, b1, id, rest, child);
          seen, more := CancelTaskTree(child, actorId, reason, Some(id), seen, now);
          ids := ids + more;
          QueuedTwice(es, mid, live.exchanges, b0.tasks, b1.tasks, before, more, now);
          ComposeCancels(b0, before, b1, more, BookNow(), id, source, child, actorId, reason, now);
          WalkGoesOn(b0, before, b1, more, id, source, child, rest, actorId, reason, now);
        } else {
          WalkSkips(b0, ids, BookNow(), id, rest, child);
        }
        rest := rest - {child};
      }
      WalkEnds(b0.tasks, id, ids);
    }

    method CancelTask(taskId: Id, actor: Option<Party>, reason: Option<string>, now: int)
      returns (r: Result<Task, BrokerError>)
      requires Valid()
      modifies this
      ensures Valid()
      ensures var s := DoCancel(old(BookNow()), taskId, actor, reason, now);
        r == s.result && IsPruned(s.book, BookNow())
      ensures Sound(old(BookNow()), cfg.maxRequeueAttempts) ==> Sound(BookNow(), cfg.maxRequeueAttempts)
      ensures r.Err? || !IsLive(old(live).tasks, taskId) ==> live == old(live)
      ensures r.Ok? && IsLive(old(live).tasks, taskId) ==>
        LiveStay(old(live).exchanges, live.exchanges)
        && Moved(old(live).exchanges, live.exchanges, old(live).tasks, CancelSet(old(live).tasks, taskId), {}, now)
    {
      hide Overlay, Retention.Retain, IsPruned, Sound, CancelSet, CancelAll, Moved, LiveStay;
      ghost var b0 := BookNow();
      PrunedFromItself(b0);
      if taskId !in live.tasks { return Err(NotFound); }
      var task := live.tasks[taskId];
      var objection := CancelObjection(task, actor);
      if objection.Some? { return Err(objection.value); }
      if IsTerminalTask(task.status) { return Ok(task); }
      ghost var ids;
      var seen;
      seen, ids := CancelTaskTree(taskId, actor.value.id, reason, None, {}, now);
      ghost var s := DoCancel(b0, taskId, actor, reason, now);
      if Sound(b0, cfg.maxRequeueAttempts) {
        CancelKeepsSound(b0, taskId, actor, reason, now, cfg.maxRequeueAttempts);
      }
      PrunedKeepsSound(s.book, BookNow(), cfg.maxRequeueAttempts);
      r := Ok(CanceledTask(task, actor.value.id, reason, None, now));
    }

    method RejectTaskApproval(taskId: Id, actor: Option<Party>, approvalId: Id, asked: Option<OutcomeStatus>,
                              reason: string, now: int)
      returns (r: Result<Task, BrokerError>)
      requires Valid()
      modifies this
      ensures Valid()
      ensures var s := DoReject(old(BookNow()), taskId, actor, approvalId, asked, reason, now);
        r == s.result && IsPruned(s.book, BookNow())
      ensures Sound(old(BookNow()), cfg.maxRequeueAttempts) ==> Sound(BookNow(), cfg.maxRequeueAttempts)
      ensures r.Err? || old(live).tasks[taskId].approvalOutcome.Some? ==> live == old(live)
      ensures r.Ok? && old(live).tasks[taskId].approvalOutcome.None? ==>
        LiveStay(old(live).exchanges, live.exchanges)
        && Moved(old(live).exchanges, live.exchanges, old(live).tasks, CancelSet(old(live).tasks, taskId), {}, now)
    {
      hide Overlay, Retention.Retain, IsPruned, Sound, CancelSet, CancelAll, TurnDown, Moved, LiveStay;
      RejectThenPrune(BookNow(), taskId, actor, approvalId, asked, reason, now, cfg.maxRequeueAttempts);
      PrunedFromItself(BookNow());
      if taskId !in live.tasks { return Err(NotFound); }
      var task := live.tasks[taskId];
      if actor.None? { return Err(BadRequest); }
      if !IsPrivileged(actor.value) { return Err(PolicyDenied); }
      if !task.RequiresApproval() { return Err(InvalidTransition); }
      if task.approval.Some? || (task.approvalOutcome.Some? && task.approvalOutcome.value.status == Approved) {
        return Err(InvalidTransition);
      }
      if task.approvalOutcome.Some? { return Ok(task); }
      if task.status != Blocked && task.status != Queued { return Err(InvalidTransition); }
      task := RejectedTask(task, actor.value, approvalId, asked, now);
      CancelRejected(taskId, task, actor.value.id, reason, now);
      MovedAlike(old(live).exchanges, live.exchanges, old(live).tasks, taskId, task, now);
      r := Ok(CanceledTask(task, actor.value.id, Some(reason), None, now));
    }

    method CancelRejected(id: Id, rejected: Task, actorId: Id, reason: string, now: int)
      requires Valid() && id in live.tasks && !IsTerminalTask(rejected.status)
      modifies this
      ensures Valid()
      ensures IsPruned(TurnDown(old(BookNow()), id, rejected, actorId, reason, now), BookNow())
      ensures var tasks := old(live).tasks[id := rejected];
        Moved(old(live).exchanges, live.exchanges, tasks, CancelSet(tasks, id), {}, now)
      ensures LiveStay(old(live).exchanges, live.exchanges)
    {
      hide Overlay, Retention.Retain, IsPruned, CancelSet, CancelAll, Moved, LiveStay, KeptRows;
      SetTaskRecord(id, rejected);
      ghost var b1 := BookNow();
      ghost var ids;
      var seen;
      seen, ids := CancelTaskTree(id, actorId, Some(reason), None, {}, now);
      ghost var kept := BookNow();
      AppendAuditEvent(actorId, TaskApprovalRejected, OnTask, id, rejected.proposalId, now);
      LateRowAfterPrune(TaskMachine.CancelTree(b1, id, actorId, Some(reason), now), kept, BookNow(), id);
      ghost var full, rows := BookNow(), live;
      PersistState(now);
      MovedThenKept(old(live).exchanges, rows, live, b1.tasks, ids, {}, now);
      PruneTwice(TurnDown(old(BookNow()), id, rejected, actorId, reason, now), full, BookNow());
    }

    // ----- the stale-task sweep -----

    method DeadLetter(id: Id, before: Task, nowMs: int)
      requires Valid()
      modifies this`live, this`pendingHot, this`trail
      ensures Valid()
      ensures BookNow() == Bury(
        Commit(old(BookNow()), id, DeadLetteredTask(before, cfg.maxRequeueAttempts, nowMs), [TaskFailed]), id,
        TombDeadLettered, nowMs)
      ensures live == old(live).(tasks := live.tasks, tombstones := live.tombstones, auditEvents := live.auditEvents,
        exchanges := Synced(old(live).exchanges, id, DeadLetteredTask(before, cfg.maxRequeueAttempts, nowMs),
                            Some(ExchangeFailed), nowMs))
    {
      hide Overlay, Synced, TombstoneOf;
      var task := before.(status := Failed, updatedAt := Some(nowMs), completedAt := Some(nowMs),
        error := Some(RequeueLimitExceeded(before.requeueCount, cfg.maxRequeueAttempts, before.status)));
      SetTaskRecord(id, task);
      SyncExchangeStateFromTask(id, task, ExchangeFailed, nowMs);
      AppendAuditEvent(0, TaskFailed, OnTask, id, task.proposalId, nowMs);
      WriteTombstone(id, task, TombDeadLettered, 0, nowMs);
    }

    method Requeue(id: Id, before: Task, nowMs: int)
      requires Valid()
      modifies this`live, this`pendingHot, this`trail
      ensures Valid()
      ensures BookNow() == Commit(old(BookNow()), id, RequeuedTask(before, nowMs), [TaskRequeued])
      ensures live == old(live).(tasks := live.tasks, auditEvents := live.auditEvents,
        exchanges := Synced(old(live).exchanges, id, RequeuedTask(before, nowMs), Some(ExchangeQueued), nowMs))
    {
      hide Overlay, Synced;
      var task := before.(status := Queued, claimedBy := None, claimedAt := None, completedAt := None,
        attemptId := None, updatedAt := Some(nowMs), requeueCount := before.requeueCount + 1);
      SetTaskRecord(id, task);
      SyncExchangeStateFromTask(id, task, ExchangeQueued, nowMs);
      AppendAuditEvent(0, TaskRequeued, OnTask, id, task.proposalId, nowMs);
    }

    /** Splits the stale tasks by the requeue budget, in place, then persists once. */
    method RequeueStaleTasksDetailed(olderThanMs: int, workerOfflineAfterMs: Option<int>, nowMs: int)
      returns (requeued: set<Id>, deadLettered: set<Id>)
      requires Valid()
      modifies this
      ensures Valid()
      ensures var stale := StaleTasks(old(live.tasks), ThresholdMs(olderThanMs),
                                      StaleWorkers(old(live.workers), workerOfflineAfterMs, nowMs), nowMs);
        && requeued !! deadLettered && requeued + deadLettered == stale
        && (forall id :: id in stale ==>
              (id in deadLettered <==> IsExhausted(old(live.tasks)[id], cfg.maxRequeueAttempts)))
      ensures IsPruned(DoSweep(old(BookNow()), ThresholdMs(olderThanMs),
                               StaleWorkers(old(live.workers), workerOfflineAfterMs, nowMs),
                               cfg.maxRequeueAttempts, nowMs), BookNow())
      ensures Sound(old(BookNow()), cfg.maxRequeueAttempts) ==> Sound(BookNow(), cfg.maxRequeueAttempts)
      ensures Moved(old(live).exchanges, live.exchanges, old(live).tasks, requeued + deadLettered, deadLettered, nowMs)
    {
      hide Moved, KeptRows, Synced, SameAssignment;
      hide Overlay, Retention.Retain, IsPruned, Sound, SweepAll, Commit, Bury, DeadLetteredTask, RequeuedTask;
      var thresholdMs := ThresholdMs(olderThanMs);
      var staleWorkers := StaleWorkers(live.workers, workerOfflineAfterMs, nowMs);
      ghost var b0 := BookNow();
      ghost var stale := StaleTasks(live.tasks, thresholdMs, staleWorkers, nowMs);
      requeued, deadLettered := {}, {};
      var rest := live.tasks.Keys;
      SweepNothing(b0, cfg.maxRequeueAttempts, nowMs);
      ghost var es := live.exchanges;
      MovedNothing(es, b0.tasks, nowMs);
      assert stale - rest == {};
      while rest != {}
        invariant Valid()
        invariant rest <= b0.tasks.Keys
        invariant requeued !! deadLettered && requeued + deadLettered == stale - rest
        invariant forall id :: id in stale - rest ==>
          (id in deadLettered <==> IsExhausted(b0.tasks[id], cfg.maxRequeueAttempts))
        invariant BookNow() == SweepAll(b0, stale - rest, cfg.maxRequeueAttempts, nowMs)
        invariant Moved(es, live.exchanges, b0.tasks, requeued + deadLettered, deadLettered, nowMs)
        decreases rest
      {
        var id :| id in rest;
        ghost var done := stale - rest;
        rest := rest - {id};
        SweepOne(b0, done, id, cfg.maxRequeueAttempts, nowMs);
        var task := live.tasks[id];
        if !IsStale(task, thresholdMs, staleWorkers, nowMs) {
          assert stale - rest == done;
          continue;
        }
        assert stale - rest == done + {id};
        ghost var mid := live.exchanges;
        SweepKeepsAssignment(task, cfg.maxRequeueAttempts, nowMs);
        if cfg.maxRequeueAttempts > 0 && task.requeueCount >= cfg.maxRequeueAttempts {
          MovedMore(es, mid, b0.tasks, requeued + deadLettered, deadLettered, id,
                    DeadLetteredTask(task, cfg.maxRequeueAttempts, nowMs), true, nowMs);
          assert requeued + (deadLettered + {id}) == (requeued + deadLettered) + {id};
          deadLettered := deadLettered + {id};
          DeadLetter(id, task, nowMs);
        } else {
          MovedMore(es, mid, b0.tasks, requeued + deadLettered, deadLettered, id, RequeuedTask(task, nowMs), false,
                    nowMs);
          assert (requeued + {id}) + deadLettered == (requeued + deadLettered) + {id};
          Requeue(id, task, nowMs);
          requeued := requeued + {id};
        }
      }
      assert stale - rest == stale;
      SweepThenPrune(b0, thresholdMs, staleWorkers, cfg.maxRequeueAttempts, nowMs);
      PrunedFromItself(BookNow());
      if requeued != {} || deadLettered != {} {
        ghost var rows := live;
        PersistState(nowMs);
        MovedThenKept(es, rows, live, b0.tasks, requeued + deadLettered, deadLettered, nowMs);
      }
    }

    // ----- workers -----

    /** A registration needs a role and capabilities; it keeps the time of the first one. */
    method RegisterWorker(nodeId: Id, role: Option<Role>, capabilities: Option<Id>, said: ProfileUpdate, now: int)
      returns (r: Result<Worker, BrokerError>)
      requires Valid()
      modifies this
      ensures Valid()
      ensures IsPruned(old(BookNow()), BookNow())
      ensures role.None? || capabilities.None? ==> r == Err(BadRequest) && live == old(live)
      ensures role.Some? && capabilities.Some? ==> (
        && r == Ok(Worker(role.value,
             Profile(said.displayName, said.brokerUrl, capabilities.value, said.workerMode, said.metadata),
             if nodeId in old(live.workers) then old(live.workers[nodeId]).createdAt else now, now, Some(now)))
        && nodeId in live.workers && KeptRows(old(live).exchanges, old(live).workers[nodeId := r.value], live)
        && (old(IsHotPathWithRows(now)) ==> live.workers == old(live.workers)[nodeId := r.value]))
    {
      hide Overlay, Retention.Retain, IsPruned, KeptRows, Retention.IsHeartbeat;
      PrunedFromItself(BookNow());
      if role.None? || capabilities.None? { return Err(BadRequest); }
      var createdAt := if nodeId in live.workers then live.workers[nodeId].createdAt else now;
      var worker := Worker(role.value,
                           Profile(said.displayName, said.brokerUrl, capabilities.value, said.workerMode,
                                   said.metadata),
                           createdAt, now, Some(now));
      SetWorkerRecord(nodeId, worker);
      AppendAuditEvent(nodeId, WorkerRegistered, OnWorker, nodeId, None, now);
      assert HasRows(pendingHot);
      SeenWorkerStays(live, policy, now, nodeId);
      PersistState(now);
      r := Ok(worker);
    }

    method WriteOutHeartbeat(nodeId: Id, now: int)
      requires Valid() && nodeId in live.workers && live.workers[nodeId].lastSeenAt == Some(now)
      modifies this`live, this`pendingHot, this`durable, this`lastFullRetentionPersistAtMs, this`trail
      ensures Valid() && IsPruned(old(BookNow()), BookNow())
      ensures nodeId in live.workers && KeptRows(old(live).exchanges, old(live).workers, live)
      ensures durable == live && pendingHot == EMPTY_TABLES
    {
      hide Overlay, Retention.Retain, IsPruned, KeptRows, Retention.IsHeartbeat;
      AppendAuditEvent(nodeId, WorkerHeartbeat, OnWorker, nodeId, None, now);
      SeenWorkerStays(live, policy, now, nodeId);
      PersistState(now);
    }

    /** Whether a heartbeat is written out at once. */
    predicate IsWrittenOut(nodeId: Id, update: ProfileUpdate, now: int)
      reads this
      requires nodeId in live.workers
    {
      var last := if nodeId in lastPersistedWorkerHeartbeatAtMs then lastPersistedWorkerHeartbeatAtMs[nodeId] else 0;
      || workerHeartbeatPersistIntervalMs == 0
      || Updated(live.workers[nodeId].profile, update) != live.workers[nodeId].profile
      || now - last >= workerHeartbeatPersistIntervalMs
    }

    /** A heartbeat that changes nothing inside the persist interval updates the live
        row and leaves it pending. */
    method HeartbeatWorker(nodeId: Id, update: ProfileUpdate, now: int) returns (r: Result<Worker, BrokerError>)
      requires Valid()
      modifies this
      ensures Valid()
      ensures IsPruned(old(BookNow()), BookNow())
      ensures nodeId !in old(live.workers) ==> r == Err(NotFound) && live == old(live)
      ensures nodeId in old(live.workers) ==> (
        var w := old(live.workers[nodeId]);
        && r == Ok(w.(profile := Updated(w.profile, update), updatedAt := now, lastSeenAt := Some(now)))
        && nodeId in live.workers && KeptRows(old(live).exchanges, old(live).workers[nodeId := r.value], live)
        && if old(IsWrittenOut(nodeId, update, now)) then durable == live && pendingHot == EMPTY_TABLES
           else durable == old(durable) && nodeId in pendingHot.workers
                && live == old(live).(workers := old(live).workers[nodeId := r.value]))
    {
      hide Overlay, Retention.Retain, IsPruned, KeptRows, Retention.IsHeartbeat;
      PrunedFromItself(BookNow());
      if nodeId !in live.workers { return Err(NotFound); }
      var worker := live.workers[nodeId];
      var next := Updated(worker.profile, update);
      var materialChange := next != worker.profile;
      worker := worker.(profile := next, updatedAt := now, lastSeenAt := Some(now));
      SetWorkerRecord(nodeId, worker);
      RowsOfItself(live);
      r := Ok(worker);
      var last := if nodeId in lastPersistedWorkerHeartbeatAtMs then lastPersistedWorkerHeartbeatAtMs[nodeId] else 0;
      if workerHeartbeatPersistIntervalMs == 0 || materialChange || now - last >= workerHeartbeatPersistIntervalMs {
        WriteOutHeartbeat(nodeId, now);
        lastPersistedWorkerHeartbeatAtMs := lastPersistedWorkerHeartbeatAtMs[nodeId := now];
      }
    }

    ghost predicate IsHotPathWithRows(now: int)
      reads this
    {
      hotSave && now - lastFullRetentionPersistAtMs < HOT_PERSIST_FULL_RETENTION_INTERVAL_MS
    }

    /** The exchange of the task mirrors it, and no other exchange or worker changes. */
    ghost predicate ExchangesFollow(t0: Tables, id: Id, c: Command, now: int)
      reads this
    {
      KeptRows(ExchangesAfter(t0.exchanges, t0.tasks, id, c, cfg, t0.workers, now), t0.workers, live)
    }

    /** What the caller of a note sees, and the book it leaves behind. */
    ghost predicate Notes(b0: Book, id: Id, n: Note, now: int, r: Result<Task, BrokerError>)
      reads this
    {
      var s := DoNote(b0, id, n, now);
      r == s.result
      && IsPruned(s.book, BookNow())
      && (Sound(b0, cfg.maxRequeueAttempts) ==> Sound(BookNow(), cfg.maxRequeueAttempts))
    }

    /** What the caller of a task operation sees, and the book it leaves behind. */
    ghost predicate Follows(b0: Book, id: Id, c: Command, workers: map<Id, Worker>, now: int,
                            r: Result<Task, BrokerError>)
      reads this
    {
      var s := DoCommand(b0, id, c, cfg, workers, now);
      r == s.result
      && IsPruned(s.book, BookNow())
      && (Sound(b0, cfg.maxRequeueAttempts) ==> Sound(BookNow(), cfg.maxRequeueAttempts))
    }
  }
}
