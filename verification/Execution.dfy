/** Remote execution runs: payload delivery, start and result happen at most once
    per run, in that order, even when a failed run is revived. */
module ExecutionLifecycle {
  import opened Basics
  import opened EventBuffer

  datatype Status =
    WakeRequested | SessionReady | PayloadDelivered | Running | ResultReported | Failed | TimedOut | Cancelled

  predicate Allowed(from: Status, to: Status) {
    match from
    case WakeRequested => to in {SessionReady, Failed, TimedOut, Cancelled}
    case SessionReady => to in {PayloadDelivered, Failed, TimedOut, Cancelled}
    case PayloadDelivered => to in {Running, Failed, TimedOut, Cancelled}
    case Running => to in {ResultReported, Failed, TimedOut, Cancelled}
    case ResultReported => false
    case Failed => to in {WakeRequested, SessionReady}
    case TimedOut => to in {WakeRequested, SessionReady, Cancelled}
    case Cancelled => false
  }

  datatype Failure = RuntimeError | ExecutionTimeout | CancelledByOperator | OtherFailure

  datatype ResultOutcome = Success | Partial | Rejected

  datatype ExecutionError = NotFound | InvalidTransition | InvalidRetry

  datatype ExecutionRun = ExecutionRun(
    sessionKey: Id,
    status: Status,
    attempts: nat,
    payloadDelivered: bool,
    payloadDeliveredAt: Option<int>,
    startedAt: Option<int>,
    completedAt: Option<int>,
    leaseDeadline: Option<int>,
    result: Option<ResultOutcome>,
    failure: Option<Failure>,
    updatedAt: int)

  datatype Notice = Notice(runId: Id, kind: Status)

  function EntityOf(n: Notice): Id { n.runId }

  function KindOf(n: Notice): Status { n.kind }

  // ----- one run -----

  datatype Op =
    | MakeReady(leaseDeadline: Option<int>)
    | DeliverPayload(leaseDeadline: Option<int>)
    | StartRunning
    | Report(outcome: ResultOutcome)
    | Fail(reason: Failure)
    | Expire
    | Cancel

  function Target(op: Op): Status {
    match op
    case MakeReady(_) => SessionReady
    case DeliverPayload(_) => PayloadDelivered
    case StartRunning => Running
    case Report(_) => ResultReported
    case Fail(_) => Failed
    case Expire => TimedOut
    case Cancel => Cancelled
  }

  function Effect(run: ExecutionRun, op: Op): ExecutionRun {
    var at := Some(run.updatedAt);
    match op
    case MakeReady(lease) => run.(leaseDeadline := lease)
    case DeliverPayload(lease) =>
      run.(payloadDelivered := true, payloadDeliveredAt := at,
           leaseDeadline := if lease.Some? then lease else run.leaseDeadline)
    case StartRunning => run.(startedAt := at)
    case Report(outcome) => run.(result := Some(outcome), completedAt := at)
    case Fail(reason) => run.(failure := Some(reason), completedAt := at)
    case Expire => run.(failure := Some(ExecutionTimeout), completedAt := at)
    case Cancel => run.(failure := Some(CancelledByOperator), completedAt := at)
  }

  /** `Same`: the payload was delivered before; nothing happens. */
  datatype Outcome = Refused(error: ExecutionError) | Same | Moved(run: ExecutionRun)

  function Apply(run: ExecutionRun, op: Op, now: int): Outcome {
    if op.DeliverPayload? && run.payloadDelivered then Same
    else if !Allowed(run.status, Target(op)) then Refused(InvalidTransition)
    else Moved(Effect(run.(status := Target(op), updatedAt := now), op))
  }

  function NewRun(sessionKey: Id, attempts: nat, now: int): ExecutionRun {
    ExecutionRun(sessionKey, WakeRequested, attempts, false, None, None, None, None, None, None, now)
  }

  ghost predicate TraceInv(run: ExecutionRun, history: seq<Status>) {
    && IsPath(Allowed, WakeRequested, history)
    && history[|history| - 1] == run.status
    && CountOf(history, PayloadDelivered) == (if run.payloadDelivered then 1 else 0)
    && CountOf(history, Running) <= CountOf(history, PayloadDelivered)
    && CountOf(history, ResultReported) <= CountOf(history, Running)
    && (run.status == PayloadDelivered ==> run.payloadDelivered && CountOf(history, Running) == 0)
    && (run.status == Running ==>
          run.payloadDelivered && CountOf(history, Running) == 1 && CountOf(history, ResultReported) == 0)
    && (run.status == ResultReported ==> run.payloadDelivered)
  }

  lemma NewTrace(sessionKey: Id, attempts: nat, now: int)
    ensures TraceInv(NewRun(sessionKey, attempts, now), [WakeRequested])
  {
    CountAppend([], WakeRequested, PayloadDelivered);
    CountAppend([], WakeRequested, Running);
    CountAppend([], WakeRequested, ResultReported);
    assert [] + [WakeRequested] == [WakeRequested];
  }

  lemma StepKeepsTrace(run: ExecutionRun, history: seq<Status>, op: Op, now: int)
    requires TraceInv(run, history) && Apply(run, op, now).Moved?
    ensures var run' := Apply(run, op, now).run;
      TraceInv(run', history + [run'.status]) && run'.sessionKey == run.sessionKey && run'.attempts == run.attempts
  {
    hide CountOf;
    var s := Apply(run, op, now).run.status;
    CountAppend(history, s, PayloadDelivered);
    CountAppend(history, s, Running);
    CountAppend(history, s, ResultReported);
  }

  // ----- whole runs -----

  type Life = Trace<ExecutionRun, Status>

  function Live(l: Life, op: Op, now: int): Life {
    var r := Apply(l.entity, op, now);
    if r.Moved? then Trace(r.run, l.history + [r.run.status]) else l
  }

  function LiveAll(start: Life, calls: seq<(Op, int)>): Life {
    RunAll(Live, start, calls)
  }

  function Born(sessionKey: Id, attempts: nat, now: int): Life {
    Trace(NewRun(sessionKey, attempts, now), [WakeRequested])
  }

  /** In every call sequence a run delivers its payload, starts and reports at most
      once each; a start directly follows the delivery, a report the start. */
  lemma {:induction false} AtMostOnce(sessionKey: Id, attempts: nat, now: int, calls: seq<(Op, int)>)
    ensures var l := LiveAll(Born(sessionKey, attempts, now), calls);
      && TraceInv(l.entity, l.history)
      && CountOf(l.history, PayloadDelivered) <= 1
      && CountOf(l.history, Running) <= 1
      && CountOf(l.history, ResultReported) <= 1
      && (forall i :: 1 <= i < |l.history| && l.history[i] == Running ==> l.history[i - 1] == PayloadDelivered)
      && (forall i :: 1 <= i < |l.history| && l.history[i] == ResultReported ==> l.history[i - 1] == Running)
    decreases |calls|
  {
    hide CountOf;
    NewTrace(sessionKey, attempts, now);
    if calls != [] {
      AtMostOnce(sessionKey, attempts, now, calls[..|calls| - 1]);
      var l := LiveAll(Born(sessionKey, attempts, now), calls[..|calls| - 1]);
      var (op, at) := calls[|calls| - 1];
      if Apply(l.entity, op, at).Moved? {
        StepKeepsTrace(l.entity, l.history, op, at);
      }
    }
  }

  /** Reported and cancelled runs never move again. */
  lemma {:induction false} FinalIsAbsorbing(start: Life, calls: seq<(Op, int)>)
    requires start.entity.status == ResultReported || start.entity.status == Cancelled
    ensures LiveAll(start, calls) == start
    decreases |calls|
  {
    if calls != [] {
      FinalIsAbsorbing(start, calls[..|calls| - 1]);
    }
  }

  /** A run that is ready again after its payload went out can no longer run. */
  predicate Stranded(run: ExecutionRun) {
    run.payloadDelivered && run.status in {SessionReady, Failed, TimedOut, Cancelled}
  }

  lemma {:induction false} StrandedForever(start: Life, calls: seq<(Op, int)>)
    requires Stranded(start.entity)
    ensures Stranded(LiveAll(start, calls).entity)
    decreases |calls|
  {
    if calls != [] {
      StrandedForever(start, calls[..|calls| - 1]);
    }
  }

  /** A ready run can still reach a result exactly when its payload has not been
      delivered yet: reviving a run after delivery leads nowhere. */
  lemma RevivalIsUsefulOnlyBeforeDelivery(start: Life)
    requires start.entity.status == SessionReady
    ensures (exists calls :: LiveAll(start, calls).entity.status == ResultReported) <==> !start.entity.payloadDelivered
  {
    if start.entity.payloadDelivered {
      forall calls ensures LiveAll(start, calls).entity.status != ResultReported {
        StrandedForever(start, calls);
      }
    } else {
      var calls: seq<(Op, int)> := [(DeliverPayload(None), 0), (StartRunning, 0), (Report(Success), 0)];
      var l1 := Live(start, DeliverPayload(None), 0);
      RunOne(Live, start, calls[0]);
      assert calls[..2][..1] == [calls[0]];
      var l2 := Live(l1, StartRunning, 0);
      assert LiveAll(start, calls[..2]) == l2;
      assert LiveAll(start, calls) == Live(l2, Report(Success), 0);
    }
  }

  // ----- the manager -----

  ghost predicate Consistent(runs: map<Id, ExecutionRun>, log: seq<Event<Notice>>) {
    Dense(log)
    && (forall id :: id in runs ==> TraceInv(runs[id], History(log, EntityOf, KindOf, id)))
    && (forall id :: id !in runs ==> History(log, EntityOf, KindOf, id) == [])
  }

  lemma ConsistentStep(runs: map<Id, ExecutionRun>, log: seq<Event<Notice>>, id: Id, run: ExecutionRun)
    requires Consistent(runs, log)
    requires TraceInv(run, History(log, EntityOf, KindOf, id) + [run.status])
    ensures Consistent(runs[id := run], log + [Event(|log| + 1, Notice(id, run.status))])
  {
    hide TraceInv, History;
    forall x {
      HistoryAppend(log, Event(|log| + 1, Notice(id, run.status)), EntityOf, KindOf, x);
    }
  }

  class ExecutionManager {
    var runs: map<Id, ExecutionRun>
    const buffer: CursorEventBuffer<Notice>

    ghost function Log(): seq<Event<Notice>>
      reads buffer
    {
      buffer.pushed
    }

    ghost predicate Valid()
      reads this, buffer
    {
      buffer.Valid() && buffer.nextId == |Log()| && Consistent(runs, Log())
    }

    constructor (maxEvents: nat)
      ensures Valid() && runs == map[] && Log() == [] && fresh(buffer)
    {
      runs := map[];
      buffer := new CursorEventBuffer<Notice>(if maxEvents > 0 then maxEvents else 500);
    }

    method EmitEvent(id: Id, kind: Status)
      requires buffer.Valid() && buffer.nextId == |Log()|
      modifies buffer
      ensures buffer.Valid() && buffer.nextId == |Log()|
      ensures Log() == old(Log()) + [Event(|old(Log())| + 1, Notice(id, kind))]
    {
      var eventId := buffer.AllocateId();
      buffer.Push(Event(eventId, Notice(id, kind)));
    }

    method AddRun(newId: Id, run: ExecutionRun)
      requires Valid() && newId !in runs && exists s, a, now :: run == NewRun(s, a, now)
      modifies this, buffer
      ensures Valid() && runs == old(runs)[newId := run]
      ensures Log() == old(Log()) + [Event(|old(Log())| + 1, Notice(newId, WakeRequested))]
    {
      hide TraceInv, History;
      NewTrace(run.sessionKey, run.attempts, run.updatedAt);
      assert [] + [WakeRequested] == [WakeRequested];
      ConsistentStep(runs, Log(), newId, run);
      runs := runs[newId := run];
      EmitEvent(newId, WakeRequested);
    }

    method RequestExecution(sessionKey: Id, newId: Id, now: int) returns (run: ExecutionRun)
      requires Valid() && newId !in runs
      modifies this, buffer
      ensures Valid() && run == NewRun(sessionKey, 1, now) && runs == old(runs)[newId := run]
      ensures Log() == old(Log()) + [Event(|old(Log())| + 1, Notice(newId, WakeRequested))]
    {
      run := NewRun(sessionKey, 1, now);
      AddRun(newId, run);
    }

    /** A retry is a new run for the same session; the failed run stays as it is. */
    method RetryExecution(runId: Id, newId: Id, now: int) returns (r: Result<ExecutionRun, ExecutionError>)
      requires Valid() && newId !in runs
      modifies this, buffer
      ensures Valid()
      ensures r == if runId !in old(runs) then Err(NotFound)
        else if old(runs)[runId].status != Failed && old(runs)[runId].status != TimedOut then Err(InvalidRetry)
        else Ok(NewRun(old(runs)[runId].sessionKey, old(runs)[runId].attempts + 1, now))
      ensures runs == if r.Ok? then old(runs)[newId := r.value] else old(runs)
    {
      if runId !in runs {
        return Err(NotFound);
      }
      var existing := runs[runId];
      if existing.status != Failed && existing.status != TimedOut {
        return Err(InvalidRetry);
      }
      var run := NewRun(existing.sessionKey, existing.attempts + 1, now);
      AddRun(newId, run);
      r := Ok(run);
    }

    method Transition(runId: Id, op: Op, now: int) returns (r: Result<ExecutionRun, ExecutionError>)
      requires Valid()
      requires runId in runs ==> !(op.DeliverPayload? && runs[runId].payloadDelivered)
      modifies this, buffer
      ensures Valid() && Follows(old(runs), old(Log()), runId, op, now, r)
    {
      hide TraceInv, History;
      if runId !in runs {
        return Err(NotFound);
      }
      var run := runs[runId];
      if !Allowed(run.status, Target(op)) {
        return Err(InvalidTransition);
      }
      run := run.(status := Target(op), updatedAt := now);
      run := Effect(run, op);
      assert Moved(run) == Apply(runs[runId], op, now);
      StepKeepsTrace(runs[runId], History(Log(), EntityOf, KindOf, runId), op, now);
      ConsistentStep(runs, Log(), runId, run);
      runs := runs[runId := run];
      EmitEvent(runId, run.status);
      r := Ok(run);
    }

    /** Every run operation; a repeated payload delivery returns early. */
    method Perform(runId: Id, op: Op, now: int) returns (r: Result<ExecutionRun, ExecutionError>)
      requires Valid()
      modifies this, buffer
      ensures Valid() && Follows(old(runs), old(Log()), runId, op, now, r)
    {
      if op.DeliverPayload? {
        if runId !in runs {
          return Err(NotFound);
        }
        if runs[runId].payloadDelivered {
          return Ok(runs[runId]);
        }
      }
      r := Transition(runId, op, now);
    }

    ghost predicate Follows(before: map<Id, ExecutionRun>, log: seq<Event<Notice>>, runId: Id, op: Op, now: int,
                            r: Result<ExecutionRun, ExecutionError>)
      reads this, buffer
    {
      if runId !in before then r == Err(NotFound) && runs == before && Log() == log
      else match Apply(before[runId], op, now)
        case Refused(e) => r == Err(e) && runs == before && Log() == log
        case Same => r == Ok(before[runId]) && runs == before && Log() == log
        case Moved(run) =>
          r == Ok(run) && runs == before[runId := run]
          && Log() == log + [Event(|log| + 1, Notice(runId, run.status))]
    }
  }
}
