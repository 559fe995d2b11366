/** Whole runs of the task lifecycle: any operations, in any order, by any
    callers, against any surrounding tables, with retention in between. */
module TaskRuns {
  import opened Basics
  import opened BrokerTypes
  import opened ApprovalPolicy
  import opened TaskMachine
  import opened TaskNotes

  datatype Op =
    | Create(request: CreateRequest, newId: Id, metadataHolds: bool)
    | Command(id: Id, command: TaskMachine.Command)
    | SilentHeartbeat(id: Id, worker: Id)
    | Annotate(id: Id, note: Note)
    | Cancel(id: Id, actor: Option<Party>, reason: Option<string>)
    | Reject(id: Id, actor: Option<Party>, approvalId: Id, asked: Option<OutcomeStatus>, why: string)
    | Sweep(olderThanMs: nat, staleWorkers: set<Id>)
    | Prune(keep: set<Id>)

  /** `db` supplies the exchanges, proposals and workers the operation sees. */
  datatype Event = Event(op: Op, db: Tables, now: int)

  ghost function Step(b: Book, e: Event, cfg: Config): Book {
    match e.op
    case Create(r, newId, metadataHolds) => DoCreate(b, r, newId, metadataHolds, cfg, e.db, e.now).book
    case Command(id, c) => DoCommand(b, id, c, cfg, e.db.workers, e.now).book
    case SilentHeartbeat(id, worker) => DoSilentHeartbeat(b, id, worker, cfg, e.db.workers, e.now)
    case Annotate(id, note) => DoNote(b, id, note, e.now).book
    case Cancel(id, actor, reason) => DoCancel(b, id, actor, reason, e.now).book
    case Reject(id, actor, approvalId, asked, why) => DoReject(b, id, actor, approvalId, asked, why, e.now).book
    case Sweep(olderThanMs, staleWorkers) => DoSweep(b, olderThanMs, staleWorkers, cfg.maxRequeueAttempts, e.now)
    case Prune(keep) => b.(tasks := Restrict(b.tasks, keep))
  }

  /** New identifiers were never used before; retention keeps what is not terminal. */
  ghost predicate Admissible(b: Book, e: Event) {
    match e.op
    case Create(r, newId, _) =>
      (r.id.GetOr(newId) in b.tasks || r.id.GetOr(newId) !in b.trail) && (r.id.None? ==> newId !in b.tasks)
    case Prune(keep) => forall id :: IsLive(b.tasks, id) ==> id in keep
    case _ => true
  }

  ghost function Run(events: seq<Event>, cfg: Config): Book {
    if events == [] then EMPTY_BOOK
    else Step(Run(events[..|events| - 1], cfg), events[|events| - 1], cfg)
  }

  ghost predicate AdmissibleRun(events: seq<Event>, cfg: Config) {
    events == []
    || (AdmissibleRun(events[..|events| - 1], cfg)
        && Admissible(Run(events[..|events| - 1], cfg), events[|events| - 1]))
  }

  lemma StepKeepsSound(b: Book, e: Event, cfg: Config)
    requires Sound(b, cfg.maxRequeueAttempts) && Admissible(b, e)
    ensures Sound(Step(b, e, cfg), cfg.maxRequeueAttempts)
  {
    hide Sound, DoCreate, DoCommand, DoSilentHeartbeat, DoNote, DoCancel, DoReject, DoSweep;
    var cap := cfg.maxRequeueAttempts;
    match e.op
    case Create(r, newId, metadataHolds) =>
      assert r.id.GetOr(newId) in b.tasks || r.id.GetOr(newId) !in b.trail;
      CreateKeepsSound(b, r, newId, metadataHolds, cfg, e.db, e.now);
    case Command(id, c) => CommandKeepsSound(b, id, c, cfg, e.db.workers, e.now);
    case SilentHeartbeat(id, worker) => SilentHeartbeatKeepsSound(b, id, worker, cfg, e.db.workers, e.now);
    case Annotate(id, note) => NoteKeepsSound(b, id, note, e.now, cap);
    case Cancel(id, actor, reason) => CancelKeepsSound(b, id, actor, reason, e.now, cap);
    case Reject(id, actor, approvalId, asked, why) =>
      RejectKeepsSound(b, id, actor, approvalId, asked, why, e.now, cap);
    case Sweep(olderThanMs, staleWorkers) => SweepKeepsSound(b, olderThanMs, staleWorkers, cap, e.now);
    case Prune(keep) =>
      assert IsPruned(b, Step(b, e, cfg));
      PruneKeepsSound(b, Step(b, e, cfg), cap);
  }

  /** Every reachable book satisfies the invariant. */
  lemma {:induction false} EveryRunIsSound(events: seq<Event>, cfg: Config)
    requires AdmissibleRun(events, cfg)
    ensures Sound(Run(events, cfg), cfg.maxRequeueAttempts)
    decreases |events|
  {
    hide Step, Admissible, TaskInv;
    if events != [] {
      EveryRunIsSound(events[..|events| - 1], cfg);
      StepKeepsSound(Run(events[..|events| - 1], cfg), events[|events| - 1], cfg);
    }
  }

  /** No change from `b` to `b'` forgets or revives `id`, or touches it if it is terminal. */
  ghost predicate Freezes(b: Book, b': Book, id: Id) {
    && id in b'.trail
    && (id in b'.tasks ==> id in b.tasks)
    && (id in b'.tasks && IsTerminalTask(b.tasks[id].status) ==> b'.tasks[id] == b.tasks[id])
  }

  lemma CommandFreezesTerminal(b: Book, target: Id, c: TaskMachine.Command, cfg: Config, workers: map<Id, Worker>,
                               now: int, id: Id)
    requires id in b.trail
    ensures Freezes(b, DoCommand(b, target, c, cfg, workers, now).book, id)
  {
    if target in b.tasks && RunCommand(b.tasks[target], c, cfg, workers, now).Changed? {
      TerminalIsNotChanged(b.tasks[target], c, cfg, workers, now);
      hide RunCommand;
    }
  }

  lemma TerminalIsNotChanged(t: Task, c: TaskMachine.Command, cfg: Config, workers: map<Id, Worker>, now: int)
    requires RunCommand(t, c, cfg, workers, now).Changed?
    requires t.status == Blocked || t.status == Queued || !c.Approve?
    ensures !IsTerminalTask(t.status)
  {
    hide WorkerObjection;
  }

  lemma CreateFreezesTerminal(b: Book, e: Event, cfg: Config, id: Id)
    requires e.op.Create? && Admissible(b, e) && id in b.trail
    ensures Freezes(b, Step(b, e, cfg), id)
  {
    hide CreateObjection, LinkObjection, NormalizeContext;
  }

  lemma CancelFreezesTerminal(b: Book, ids: set<Id>, root: Id, actorId: Id, reason: Option<string>, now: int, id: Id)
    requires ids <= b.tasks.Keys && (forall x :: x in ids ==> IsLive(b.tasks, x)) && id in b.trail
    ensures Freezes(b, CancelAll(b, ids, root, None, actorId, reason, now), id)
  {
  }

  lemma RejectFreezesTerminal(b: Book, id: Id, rejected: Task, actorId: Id, reason: string, now: int, x: Id)
    requires IsLive(b.tasks, id) && !IsTerminalTask(rejected.status) && x in b.trail
    ensures Freezes(b, TurnDown(b, id, rejected, actorId, reason, now), x)
  {
    hide CancelSet, CancelAll;
    var b0 := b.(tasks := b.tasks[id := rejected]);
    CancelSetIsLive(b0.tasks, id);
    CancelFreezesTerminal(b0, CancelSet(b0.tasks, id), id, actorId, Some(reason), now, x);
  }

  lemma SweepFreezesTerminal(b: Book, olderThanMs: nat, staleWorkers: set<Id>, cap: nat, now: int, id: Id)
    requires id in b.trail
    ensures Freezes(b, DoSweep(b, olderThanMs, staleWorkers, cap, now), id)
  {
    hide SweptTask;
  }

  lemma NoteFreezesTerminal(b: Book, target: Id, n: Note, now: int, id: Id)
    requires id in b.trail
    ensures var b' := DoNote(b, target, n, now).book;
      && id in b'.trail && (id in b'.tasks <==> id in b.tasks)
      && (id in b.tasks && IsTerminalTask(b.tasks[id].status) ==> SameButNotes(b.tasks[id], b'.tasks[id]))
  {
    if target in b.tasks && RunNote(b.tasks[target], n, now).Noted? && IsTerminalTask(b.tasks[target].status) {
      NoteOnTerminal(b.tasks[target], n, now);
    }
    hide RunNote;
  }

  /** No step revives a task that is gone. On a terminal one it changes the payload, the
      decision on a planned wake and the time of the last change, and nothing else. */
  lemma StepFreezesTerminal(b: Book, e: Event, cfg: Config, id: Id)
    requires Admissible(b, e) && id in b.trail
    ensures var b' := Step(b, e, cfg);
      && id in b'.trail
      && (id !in b.tasks ==> id !in b'.tasks)
      && (id in b.tasks && IsTerminalTask(b.tasks[id].status) && id in b'.tasks
          ==> SameButNotes(b.tasks[id], b'.tasks[id]))
  {
    hide DoCommand, CancelSet, DoSweep, DoCreate, DoNote, TurnDown, CancelAll;
    match e.op
    case Create(_, _, _) => CreateFreezesTerminal(b, e, cfg, id);
    case Command(c, command) => CommandFreezesTerminal(b, c, command, cfg, e.db.workers, e.now, id);
    case SilentHeartbeat(c, worker) => CommandFreezesTerminal(b, c, Heartbeat(worker), cfg, e.db.workers, e.now, id);
    case Annotate(c, note) => NoteFreezesTerminal(b, c, note, e.now, id);
    case Cancel(c, actor, reason) =>
      CancelSetIsLive(b.tasks, c);
      if actor.Some? {
        CancelFreezesTerminal(b, CancelSet(b.tasks, c), c, actor.value.id, reason, e.now, id);
      }
    case Reject(c, actor, approvalId, asked, reason) =>
      if c in b.tasks && RejectObjection(b.tasks[c], actor).None? && b.tasks[c].approvalOutcome.None? {
        RejectFreezesTerminal(b, c, RejectedTask(b.tasks[c], actor.value, approvalId, asked, e.now), actor.value.id,
                              reason, e.now, id);
      }
    case Sweep(olderThanMs, staleWorkers) =>
      SweepFreezesTerminal(b, olderThanMs, staleWorkers, cfg.maxRequeueAttempts, e.now, id);
    case Prune(_) =>
  }

  lemma {:induction false} GoneStaysGone(events: seq<Event>, k: nat, cfg: Config, id: Id)
    requires AdmissibleRun(events, cfg) && k <= |events|
    requires id in Run(events[..k], cfg).trail && id !in Run(events[..k], cfg).tasks
    ensures id !in Run(events, cfg).tasks && id in Run(events, cfg).trail
    decreases |events|
  {
    hide Step, Admissible;
    if k == |events| {
      assert events[..k] == events;
    } else {
      var before := events[..|events| - 1];
      assert before[..k] == events[..k];
      GoneStaysGone(before, k, cfg, id);
      StepFreezesTerminal(Run(before, cfg), events[|events| - 1], cfg, id);
    }
  }

  /** Once a task is terminal, its status, result, error, cancellation, approval and the
      rest of its record never change again, for as long as the broker remembers it. Only
      its payload, its wake and the time of its last change are still written; a terminal
      task gets no wake that it did not have, and loses no decision on one. */
  lemma {:induction false} TerminalIsForever(events: seq<Event>, k: nat, cfg: Config, id: Id)
    requires AdmissibleRun(events, cfg) && k <= |events|
    requires id in Run(events[..k], cfg).tasks && IsTerminalTask(Run(events[..k], cfg).tasks[id].status)
    requires id in Run(events, cfg).tasks
    ensures SameButNotes(Run(events[..k], cfg).tasks[id], Run(events, cfg).tasks[id])
    decreases |events|
  {
    hide Step, Admissible, TaskInv;
    if k == |events| {
      assert events[..k] == events;
    } else {
      var before := events[..|events| - 1];
      assert before[..k] == events[..k];
      AdmissiblePrefix(before, k, cfg);
      EveryRunIsSound(before[..k], cfg);
      KnownStaysKnown(before, k, cfg, id);
      StepFreezesTerminal(Run(before, cfg), events[|events| - 1], cfg, id);
      TerminalIsForever(before, k, cfg, id);
    }
  }

  lemma {:induction false} AdmissiblePrefix(events: seq<Event>, k: nat, cfg: Config)
    requires AdmissibleRun(events, cfg) && k <= |events|
    ensures AdmissibleRun(events[..k], cfg)
    decreases |events|
  {
    hide Step, Admissible;
    if k == |events| {
      assert events[..k] == events;
    } else {
      assert events[..|events| - 1][..k] == events[..k];
      AdmissiblePrefix(events[..|events| - 1], k, cfg);
    }
  }

  lemma {:induction false} KnownStaysKnown(events: seq<Event>, k: nat, cfg: Config, id: Id)
    requires AdmissibleRun(events, cfg) && k <= |events|
    requires id in Run(events[..k], cfg).trail
    ensures id in Run(events, cfg).trail
    decreases |events|
  {
    hide Step, Admissible;
    if k == |events| {
      assert events[..k] == events;
    } else {
      var before := events[..|events| - 1];
      assert before[..k] == events[..k];
      KnownStaysKnown(before, k, cfg, id);
      StepFreezesTerminal(Run(before, cfg), events[|events| - 1], cfg, id);
    }
  }

  /** The approval gate over whole runs: a task whose stored policy asks for
      approval was approved before each of its claims, and without approval it
      has never gone past `blocked` except by cancellation. */
  lemma ApprovalGateHolds(events: seq<Event>, cfg: Config, id: Id)
    requires AdmissibleRun(events, cfg)
    requires id in Run(events, cfg).tasks && Run(events, cfg).tasks[id].RequiresApproval()
    ensures var t := Run(events, cfg).tasks[id];
      && GateRespected(TrailOf(Run(events, cfg), id))
      && (t.approval.None? ==> t.status == Blocked || t.status == Canceled)
      && !(t.approval.Some? && t.approvalOutcome.Some? && t.approvalOutcome.value.status != Approved)
  {
    hide Step;
    EveryRunIsSound(events, cfg);
  }

  /** The requeue budget over whole runs. */
  lemma RequeueBudgetHolds(events: seq<Event>, cfg: Config, id: Id)
    requires AdmissibleRun(events, cfg) && id in Run(events, cfg).tasks
    ensures var t := Run(events, cfg).tasks[id];
      && t.requeueCount == RequeuesSince(TrailOf(Run(events, cfg), id))
      && (cfg.maxRequeueAttempts > 0 ==> RequeuesSince(TrailOf(Run(events, cfg), id)) <= cfg.maxRequeueAttempts)
      && Terminations(TrailOf(Run(events, cfg), id)) == (if IsTerminalTask(t.status) then 1 else 0)
  {
    hide Step;
    EveryRunIsSound(events, cfg);
  }

  lemma StepTellsWakes(b: Book, e: Event, cfg: Config)
    requires WakesTold(b)
    ensures WakesTold(Step(b, e, cfg))
  {
    hide WakesTold, DoCreate, DoCommand, DoNote, DoCancel, DoReject, DoSweep;
    var b' := Step(b, e, cfg);
    match e.op
    case Create(r, newId, metadataHolds) => CreateTellsWakes(b, r, newId, metadataHolds, cfg, e.db, e.now);
    case Annotate(id, note) => NoteTellsWakes(b, id, note, e.now);
    case Command(id, c) =>
      CommandSameWakes(b, id, c, cfg, e.db.workers, e.now);
      SameWakesTold(b, b');
    case SilentHeartbeat(id, worker) =>
      CommandSameWakes(b, id, Heartbeat(worker), cfg, e.db.workers, e.now);
      SameWakesTold(b, b');
    case Cancel(id, actor, reason) =>
      CancelSameWakes(b, id, actor, reason, e.now);
      SameWakesTold(b, b');
    case Reject(id, actor, approvalId, asked, why) =>
      RejectSameWakes(b, id, actor, approvalId, asked, why, e.now);
      SameWakesTold(b, b');
    case Sweep(olderThanMs, staleWorkers) =>
      SweepSameWakes(b, olderThanMs, staleWorkers, cfg.maxRequeueAttempts, e.now);
      SameWakesTold(b, b');
    case Prune(keep) => SameWakesTold(b, b');
  }

  /** The wake of a task is planned at most once and decided at most once, after that,
      in the whole history of the task: the audit trail tells it. */
  lemma {:induction false} TrailTellsWakes(events: seq<Event>, cfg: Config)
    ensures WakesTold(Run(events, cfg))
    decreases |events|
  {
    hide Step;
    if events != [] {
      TrailTellsWakes(events[..|events| - 1], cfg);
      StepTellsWakes(Run(events[..|events| - 1], cfg), events[|events| - 1], cfg);
    }
  }
}
