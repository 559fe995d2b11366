/** What can be written on a task whatever its status: its payload, and the wake that
    announces it. Nothing else of the task changes, and the audit trail tells its wake. */
module TaskNotes {
  import opened Basics
  import opened BrokerTypes
  import opened ApprovalPolicy
  import opened TaskMachine

  /** `hasSession`: the request names a session. `key` is the key that the request
      and the task make up. */
  datatype Note =
    | UpdatePayload(actor: Option<Party>, payload: Id)
    | PlanWake(hasSession: bool, key: Id, details: Id)
    | DecideWake(verdict: WakeVerdict, details: Id)

  /** `Standing`: the call is an accepted repetition and touches nothing. A replayed
      plan is written without an audit row. */
  datatype NoteOutcome = NotNoted(error: BrokerError) | Standing | Noted(task: Task, row: Option<AuditAction>)

  function RunUpdate(t: Task, actor: Option<Party>, payload: Id, now: int): NoteOutcome {
    if actor.None? then NotNoted(BadRequest)
    else Noted(t.(payload := payload, updatedAt := Some(now)), Some(TaskUpdated))
  }

  function RunPlan(t: Task, hasSession: bool, key: Id, details: Id, now: int): NoteOutcome {
    if !hasSession then NotNoted(BadRequest)
    else if IsTerminalTask(t.status) then NotNoted(InvalidTransition)
    else if t.wake.None? then
      Noted(t.(wake := Some(Wake(key, details, None, now, now, 0)), updatedAt := Some(now)), Some(TaskWakePlanned))
    else if t.wake.value.key != key then NotNoted(InvalidTransition)
    else
      var w := t.wake.value;
      Noted(t.(wake := Some(w.(replayCount := w.replayCount + 1, updatedAt := now))), None)
  }

  function RunDecide(t: Task, verdict: WakeVerdict, details: Id, now: int): NoteOutcome {
    if t.wake.None? then NotNoted(InvalidTransition)
    else if t.wake.value.decision.Some? then
      if t.wake.value.decision.value.verdict == verdict then Standing else NotNoted(InvalidTransition)
    else
      var decided := t.wake.value.(decision := Some(WakeDecision(verdict, details, now)), updatedAt := now);
      Noted(t.(wake := Some(decided), updatedAt := Some(now)), Some(TaskWakeDecided(verdict)))
  }

  function RunNote(t: Task, n: Note, now: int): NoteOutcome {
    match n
    case UpdatePayload(actor, payload) => RunUpdate(t, actor, payload, now)
    case PlanWake(hasSession, key, details) => RunPlan(t, hasSession, key, details, now)
    case DecideWake(verdict, details) => RunDecide(t, verdict, details, now)
  }

  function DoNote(b: Book, id: Id, n: Note, now: int): Reply {
    if id !in b.tasks then Reply(b, Err(NotFound))
    else match RunNote(b.tasks[id], n, now)
      case NotNoted(e) => Reply(b, Err(e))
      case Standing => Reply(b, Ok(b.tasks[id]))
      case Noted(t, row) => Reply(WithNote(b, id, t, row), Ok(t))
  }

  function WithNote(b: Book, id: Id, t: Task, row: Option<AuditAction>): Book {
    if row.Some? then Commit(b, id, t, [row.value]) else b.(tasks := b.tasks[id := t])
  }

  // ----- what a note leaves alone -----

  /** The same task but for its payload, its wake and the time of its last change. The
      wake of a terminal task can only be decided, once. */
  ghost predicate SameButNotes(t: Task, t': Task) {
    && t' == t.(payload := t'.payload, wake := t'.wake, updatedAt := t'.updatedAt)
    && (t.wake.None? || t.wake.value.decision.Some? ==> t'.wake == t.wake)
    && (t.wake.Some? ==> t'.wake.Some? && t'.wake.value.key == t.wake.value.key
                         && t'.wake.value.replayCount == t.wake.value.replayCount)
  }

  lemma NoteOnTerminal(t: Task, n: Note, now: int)
    requires RunNote(t, n, now).Noted? && IsTerminalTask(t.status)
    ensures SameButNotes(t, RunNote(t, n, now).task)
  {
  }

  lemma NoteKeepsSound(b: Book, id: Id, n: Note, now: int, cap: nat)
    requires Sound(b, cap)
    ensures Sound(DoNote(b, id, n, now).book, cap)
  {
    hide TaskInv, RunNote, WithNote;
    if id in b.tasks && RunNote(b.tasks[id], n, now).Noted? {
      var o := RunNote(b.tasks[id], n, now);
      NoteKeepsTask(b.tasks[id], n, now, TrailOf(b, id), id in b.tombstones, cap);
      WithNoteKeepsSound(b, id, o.task, o.row, cap);
    }
  }

  lemma WithNoteKeepsSound(b: Book, id: Id, t: Task, row: Option<AuditAction>, cap: nat)
    requires Sound(b, cap) && id in b.tasks
    requires TaskInv(t, if row.Some? then TrailOf(b, id) + [row.value] else TrailOf(b, id), id in b.tombstones, cap)
    ensures Sound(WithNote(b, id, t, row), cap)
  {
    hide TaskInv;
    if row.Some? {
      CommitKeepsSound(b, id, t, row.value, cap);
    } else {
      OneTaskChanged(b, WithNote(b, id, t, row), id, cap);
    }
  }

  lemma NoteKeepsTask(t: Task, n: Note, now: int, trail: seq<AuditAction>, buried: bool, cap: nat)
    requires TaskInv(t, trail, buried, cap) && RunNote(t, n, now).Noted?
    ensures var o := RunNote(t, n, now);
      TaskInv(o.task, if o.row.Some? then trail + [o.row.value] else trail, buried, cap)
  {
    hide RequeuesSince, Terminations, GateRespected;
    var o := RunNote(t, n, now);
    if o.row.Some? {
      TrailAppend(trail, o.row.value);
    }
  }

  // ----- the audit trail tells the wake -----

  predicate IsWakeRow(a: AuditAction) {
    a == TaskWakePlanned || a.TaskWakeDecided?
  }

  function WakeRows(trail: seq<AuditAction>): seq<AuditAction> {
    if trail == [] then []
    else
      var last := trail[|trail| - 1];
      WakeRows(trail[..|trail| - 1]) + if IsWakeRow(last) then [last] else []
  }

  /** A wake is planned once and decided at most once, after that. */
  function RowsOf(wake: Option<Wake>): seq<AuditAction> {
    if wake.None? then []
    else if wake.value.decision.None? then [TaskWakePlanned]
    else [TaskWakePlanned, TaskWakeDecided(wake.value.decision.value.verdict)]
  }

  ghost predicate WakesTold(b: Book) {
    forall id :: id in b.tasks ==> WakeRows(TrailOf(b, id)) == RowsOf(b.tasks[id].wake)
  }

  ghost predicate SameWake(b: Book, b': Book, id: Id)
    requires id in b'.tasks
  {
    id in b.tasks && b'.tasks[id].wake == b.tasks[id].wake && WakeRows(TrailOf(b', id)) == WakeRows(TrailOf(b, id))
  }

  /** `b'` has no wake that is not in `b`, with the same rows. */
  ghost predicate SameWakes(b: Book, b': Book) {
    forall id :: id in b'.tasks ==> SameWake(b, b', id)
  }

  lemma NoWakeRow(trail: seq<AuditAction>, a: AuditAction)
    requires !IsWakeRow(a)
    ensures WakeRows(trail + [a]) == WakeRows(trail)
  {
    assert (trail + [a])[..|trail|] == trail;
  }

  lemma NoWakeRows(trail: seq<AuditAction>, a: AuditAction, more: AuditAction)
    requires !IsWakeRow(a) && !IsWakeRow(more)
    ensures WakeRows(trail + [a, more]) == WakeRows(trail)
  {
    NoWakeRow(trail, a);
    NoWakeRow(trail + [a], more);
    assert trail + [a, more] == trail + [a] + [more];
  }

  lemma NoteTellsWakes(b: Book, id: Id, n: Note, now: int)
    requires WakesTold(b)
    ensures WakesTold(DoNote(b, id, n, now).book)
  {
    hide RunNote, WakeRows, RowsOf;
    if id in b.tasks && RunNote(b.tasks[id], n, now).Noted? {
      NoteTellsWake(b.tasks[id], n, now, TrailOf(b, id));
    }
  }

  lemma NoteTellsWake(t: Task, n: Note, now: int, trail: seq<AuditAction>)
    requires RunNote(t, n, now).Noted? && WakeRows(trail) == RowsOf(t.wake)
    ensures var o := RunNote(t, n, now);
      WakeRows(if o.row.Some? then trail + [o.row.value] else trail) == RowsOf(o.task.wake)
  {
    var o := RunNote(t, n, now);
    if o.row.Some? {
      assert (trail + [o.row.value])[..|trail|] == trail;
    }
  }

  lemma SameWakesTold(b: Book, b': Book)
    requires WakesTold(b) && SameWakes(b, b')
    ensures WakesTold(b')
  {
    hide WakeRows, RowsOf;
  }

  lemma SameWakesTwice(b: Book, b': Book, b'': Book)
    requires SameWakes(b, b') && SameWakes(b', b'')
    ensures SameWakes(b, b'')
  {
    hide WakeRows;
  }

  lemma CommandSameWakes(b: Book, id: Id, c: Command, cfg: Config, workers: map<Id, Worker>, now: int)
    ensures SameWakes(b, DoCommand(b, id, c, cfg, workers, now).book)
  {
    hide RunCommand, WakeRows, SameWake;
    if id in b.tasks && RunCommand(b.tasks[id], c, cfg, workers, now).Changed? {
      var o := RunCommand(b.tasks[id], c, cfg, workers, now);
      CommandKeepsWake(b.tasks[id], c, cfg, workers, now);
      var b1 := Commit(b, id, o.task, [o.action]);
      CommitSameWakes(b, id, o.task, o.action);
      if o.task.status == Failed {
        RowSameWakes(b1, Bury(b1, id, TombFailed, now), id, TaskTombstoned);
        SameWakesTwice(b, b1, Bury(b1, id, TombFailed, now));
      }
    } else {
      SameWakesOfItself(b);
    }
  }

  lemma SameWakesOfItself(b: Book)
    ensures SameWakes(b, b)
  {
  }

  lemma CommitSameWakes(b: Book, id: Id, t: Task, action: AuditAction)
    requires id in b.tasks && t.wake == b.tasks[id].wake && !IsWakeRow(action)
    ensures SameWakes(b, Commit(b, id, t, [action]))
  {
    hide WakeRows;
    NoWakeRow(TrailOf(b, id), action);
  }

  lemma RowSameWakes(b: Book, b': Book, id: Id, action: AuditAction)
    requires b'.tasks == b.tasks && b'.trail == b.trail[id := TrailOf(b, id) + [action]] && !IsWakeRow(action)
    ensures SameWakes(b, b')
  {
    hide WakeRows;
    NoWakeRow(TrailOf(b, id), action);
  }

  lemma CommandKeepsWake(t: Task, c: Command, cfg: Config, workers: map<Id, Worker>, now: int)
    requires RunCommand(t, c, cfg, workers, now).Changed?
    ensures var o := RunCommand(t, c, cfg, workers, now); o.task.wake == t.wake && !IsWakeRow(o.action)
  {
  }

  lemma CreateTellsWakes(b: Book, r: CreateRequest, newId: Id, metadataHolds: bool, cfg: Config, db: Tables, now: int)
    requires WakesTold(b)
    ensures WakesTold(DoCreate(b, r, newId, metadataHolds, cfg, db, now).book)
  {
    hide CreateObjection, LinkObjection, NormalizeContext, WakeRows;
    var b' := DoCreate(b, r, newId, metadataHolds, cfg, db, now).book;
    FirstRowTellsNothing();
    forall x | x in b'.tasks ensures WakeRows(TrailOf(b', x)) == RowsOf(b'.tasks[x].wake) {
    }
  }

  lemma FirstRowTellsNothing()
    ensures WakeRows([TaskCreated]) == []
  {
  }

  lemma CancelAllSameWakes(b: Book, ids: set<Id>, root: Id, source: Option<Id>, actorId: Id, reason: Option<string>,
                           now: int)
    requires ids <= b.tasks.Keys
    ensures SameWakes(b, CancelAll(b, ids, root, source, actorId, reason, now))
  {
    hide WakeRows;
    var b' := CancelAll(b, ids, root, source, actorId, reason, now);
    forall id | id in b'.tasks ensures WakeRows(TrailOf(b', id)) == WakeRows(TrailOf(b, id)) {
      NoWakeRows(TrailOf(b, id), TaskCanceled, TaskTombstoned);
    }
  }

  lemma CancelSameWakes(b: Book, id: Id, actor: Option<Party>, reason: Option<string>, now: int)
    ensures SameWakes(b, DoCancel(b, id, actor, reason, now).book)
  {
    hide CancelSet, WakeRows, CancelAll;
    if DoCancel(b, id, actor, reason, now).book != b {
      CancelSetIsLive(b.tasks, id);
      CancelAllSameWakes(b, CancelSet(b.tasks, id), id, None, actor.value.id, reason, now);
    }
  }

  lemma RejectSameWakes(b: Book, id: Id, actor: Option<Party>, approvalId: Id, asked: Option<OutcomeStatus>,
                        reason: string, now: int)
    ensures SameWakes(b, DoReject(b, id, actor, approvalId, asked, reason, now).book)
  {
    hide CancelSet, WakeRows, TurnDown;
    if DoReject(b, id, actor, approvalId, asked, reason, now).book != b {
      TurnDownSameWakes(b, id, RejectedTask(b.tasks[id], actor.value, approvalId, asked, now), actor.value.id, reason,
                        now);
    }
  }

  lemma TurnDownSameWakes(b: Book, id: Id, rejected: Task, actorId: Id, reason: string, now: int)
    requires id in b.tasks && rejected.wake == b.tasks[id].wake
    ensures SameWakes(b, TurnDown(b, id, rejected, actorId, reason, now))
  {
    hide CancelSet, WakeRows, CancelAll;
    var b0 := b.(tasks := b.tasks[id := rejected]);
    CancelSetIsLive(b0.tasks, id);
    CancelAllSameWakes(b0, CancelSet(b0.tasks, id), id, None, actorId, Some(reason), now);
    RowSameWakes(CancelTree(b0, id, actorId, Some(reason), now), TurnDown(b, id, rejected, actorId, reason, now), id,
                 TaskApprovalRejected);
  }

  lemma SweepSameWakes(b: Book, olderThanMs: nat, staleWorkers: set<Id>, cap: nat, nowMs: int)
    ensures SameWakes(b, DoSweep(b, olderThanMs, staleWorkers, cap, nowMs))
  {
    hide WakeRows, IsStale, SweepAll, SameWake;
    var b' := DoSweep(b, olderThanMs, staleWorkers, cap, nowMs);
    forall id | id in b'.tasks ensures SameWake(b, b', id) {
      SweptSameWake(b, StaleTasks(b.tasks, olderThanMs, staleWorkers, nowMs), cap, nowMs, id);
    }
  }

  lemma SweptSameWake(b: Book, ids: set<Id>, cap: nat, nowMs: int, id: Id)
    requires ids <= b.tasks.Keys && id in SweepAll(b, ids, cap, nowMs).tasks
    ensures SameWake(b, SweepAll(b, ids, cap, nowMs), id)
  {
    hide WakeRows, IsExhausted, SweptTombstones;
    NoWakeRows(TrailOf(b, id), TaskFailed, TaskTombstoned);
    NoWakeRow(TrailOf(b, id), TaskRequeued);
  }
}
