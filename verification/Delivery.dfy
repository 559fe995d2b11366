/** Delivery of results to their originators: a retrying state machine per
    delivery, an exact run index, and a bounded number of events per delivery. */
module DeliveryLifecycle {
  import opened Basics
  import opened EventBuffer

  datatype Status = ResultReady | Pending | Delivering | Delivered | Acked | Failed | Retrying | TimedOut

  predicate Allowed(from: Status, to: Status) {
    match from
    case ResultReady => to in {Pending, Failed, TimedOut}
    case Pending => to in {Delivering, Retrying, Failed, TimedOut}
    case Delivering => to in {Delivered, Failed, TimedOut}
    case Delivered => to in {Acked, TimedOut}
    case Acked => false
    case Failed => to in {Retrying, TimedOut}
    case Retrying => to in {Pending, Failed, TimedOut}
    case TimedOut => to == Retrying
  }

  datatype FailureCode = OriginatorUnreachable | DeliveryTimeout | AckTimeout | MaxRetriesExceeded | OtherFailure

  datatype DeliveryError = NotFound | InvalidTransition | InvalidRetry

  datatype Delivery = Delivery(
    runId: Id,
    status: Status,
    attempt: int,
    maxRetries: int,
    acknowledged: bool,
    duplicateSuppressed: bool,
    deliveryStartedAt: Option<int>,
    deliveredAt: Option<int>,
    ackedAt: Option<int>,
    completedAt: Option<int>,
    failureCode: Option<FailureCode>,
    updatedAt: int)

  datatype Notice = Notice(deliveryId: Id, kind: Status, attempt: int, deliveryDurationMs: Option<int>)

  function EntityOf(n: Notice): Id { n.deliveryId }

  function KindOf(n: Notice): Status { n.kind }

  // ----- one delivery -----

  datatype Op =
    | Queue
    | Start
    | MarkDelivered
    | Acknowledge
    | Fail(reason: FailureCode)
    | Retry
    | Timeout(reason: FailureCode)

  /** The status an operation asks for; a retry past the limit asks for a timeout. */
  function Target(d: Delivery, op: Op): Status {
    match op
    case Queue => Pending
    case Start => Delivering
    case MarkDelivered => Delivered
    case Acknowledge => Acked
    case Fail(_) => Failed
    case Retry => if d.attempt + 1 > d.maxRetries then TimedOut else Retrying
    case Timeout(_) => TimedOut
  }

  function Reason(d: Delivery, op: Op): Option<FailureCode> {
    match op
    case Fail(reason) => Some(reason)
    case Retry => if d.attempt + 1 > d.maxRetries then Some(MaxRetriesExceeded) else None
    case Timeout(reason) => Some(reason)
    case _ => None
  }

  /** The fields an operation sets once the transition was accepted. */
  function Effect(d: Delivery, op: Op): Delivery {
    match op
    case Queue => d
    case Start => d.(deliveryStartedAt := Some(d.updatedAt))
    case MarkDelivered => d.(deliveredAt := Some(d.updatedAt))
    case Acknowledge => d.(acknowledged := true, ackedAt := Some(d.updatedAt), completedAt := Some(d.updatedAt))
    case Fail(_) => d
    case Retry =>
      if d.attempt + 1 > d.maxRetries then d.(attempt := d.attempt + 1)
      else d.(attempt := d.attempt + 1, failureCode := None)
    case Timeout(_) => d.(completedAt := Some(d.updatedAt))
  }

  function Apply(d: Delivery, op: Op, now: int): Result<Delivery, DeliveryError> {
    if op == Retry && d.status != Failed && d.status != TimedOut then Err(InvalidRetry)
    else if !Allowed(d.status, Target(d, op)) then Err(InvalidTransition)
    else
      var reason := Reason(d, op);
      Ok(Effect(d.(status := Target(d, op), updatedAt := now,
                   failureCode := if reason.Some? then reason else d.failureCode), op))
  }

  function NoticeOf(id: Id, d: Delivery, now: int): Notice {
    Notice(id, d.status, d.attempt,
      if d.deliveryStartedAt.Some? && (d.deliveredAt.Some? || d.status == Failed || d.status == TimedOut)
      then Some(d.deliveredAt.GetOr(now) - d.deliveryStartedAt.value)
      else None)
  }

  function NewDelivery(runId: Id, maxRetries: int, now: int): Delivery {
    Delivery(runId, ResultReady, 1, maxRetries, false, false, None, None, None, None, None, now)
  }

  // ----- the event budget -----

  function Attempts(d: Delivery): nat {
    if d.maxRetries < 1 then 1 else d.maxRetries
  }

  /** How many more events a delivery can emit at most. */
  function Rank(d: Delivery): int {
    var left := 5 * (Attempts(d) - d.attempt);
    match d.status
    case ResultReady => left + 4
    case Retrying => left + 4
    case Pending => left + 3
    case Delivering => left + 2
    case Delivered => left + 1
    case Failed => left + 1
    case Acked => 0
    case TimedOut => if d.attempt >= d.maxRetries then 0 else left
  }

  /** A delivery and the kinds of all its events. */
  ghost predicate TraceInv(d: Delivery, history: seq<Status>) {
    && IsPath(Allowed, ResultReady, history)
    && history[|history| - 1] == d.status
    && 1 <= d.attempt <= Attempts(d) + 1
    && (d.attempt == Attempts(d) + 1 ==> d.status == TimedOut)
    && Rank(d) >= 0
    && |history| + Rank(d) <= 5 * Attempts(d)
  }

  lemma NewTrace(runId: Id, maxRetries: int, now: int)
    ensures TraceInv(NewDelivery(runId, maxRetries, now), [ResultReady])
  {
  }

  lemma MarkingKeepsTrace(d: Delivery, history: seq<Status>)
    requires TraceInv(d, history)
    ensures TraceInv(d.(duplicateSuppressed := true), history)
  {
  }

  lemma ApplySpends(d: Delivery, op: Op, now: int)
    requires Apply(d, op, now).Ok? && 1 <= d.attempt <= Attempts(d) + 1 && Rank(d) >= 0
    requires d.attempt == Attempts(d) + 1 ==> d.status == TimedOut
    ensures var d' := Apply(d, op, now).value;
      && Allowed(d.status, d'.status) && 1 <= d'.attempt <= Attempts(d) + 1
      && (d'.attempt == Attempts(d) + 1 ==> d'.status == TimedOut)
      && 0 <= Rank(d') < Rank(d) && d'.maxRetries == d.maxRetries && d'.runId == d.runId
  {
  }

  /** Every accepted operation spends at least one unit of the budget. */
  lemma StepKeepsTrace(d: Delivery, history: seq<Status>, op: Op, now: int)
    requires TraceInv(d, history) && Apply(d, op, now).Ok?
    ensures var d' := Apply(d, op, now).value;
      TraceInv(d', history + [d'.status]) && Rank(d') < Rank(d) && d'.maxRetries == d.maxRetries && d'.runId == d.runId
  {
    hide Apply, Rank, Allowed, IsPath;
    ApplySpends(d, op, now);
    PathExtends(Allowed, ResultReady, history, Apply(d, op, now).value.status);
  }

  /** A timeout after the last attempt is final. */
  lemma ExhaustedTimeoutIsAbsorbing(d: Delivery, op: Op, now: int)
    requires d.status == TimedOut
    ensures d.attempt >= d.maxRetries ==> Apply(d, op, now).Err?
    ensures d.attempt < d.maxRetries ==> (Apply(d, op, now).Ok? <==> op == Retry)
  {
  }

  // ----- whole runs of one delivery -----

  type Life = Trace<Delivery, Status>

  function Live(l: Life, op: Op, now: int): Life {
    var r := Apply(l.entity, op, now);
    if r.Ok? then Trace(r.value, l.history + [r.value.status]) else l
  }

  function LiveAll(start: Life, calls: seq<(Op, int)>): Life {
    RunAll(Live, start, calls)
  }

  function Born(runId: Id, maxRetries: int, now: int): Life {
    Trace(NewDelivery(runId, maxRetries, now), [ResultReady])
  }

  /** Over any sequence of calls a delivery emits at most five events per allowed
      attempt, follows the transition table, and counts its attempts correctly. */
  lemma {:induction false} EventBudget(runId: Id, maxRetries: int, now: int, calls: seq<(Op, int)>)
    ensures var l := LiveAll(Born(runId, maxRetries, now), calls);
      && TraceInv(l.entity, l.history)
      && l.entity.maxRetries == maxRetries
      && |l.history| <= 5 * (if maxRetries < 1 then 1 else maxRetries)
      && l.entity.attempt <= (if maxRetries < 1 then 1 else maxRetries) + 1
    decreases |calls|
  {
    NewTrace(runId, maxRetries, now);
    if calls != [] {
      EventBudget(runId, maxRetries, now, calls[..|calls| - 1]);
      var l := LiveAll(Born(runId, maxRetries, now), calls[..|calls| - 1]);
      var (op, at) := calls[|calls| - 1];
      if Apply(l.entity, op, at).Ok? {
        StepKeepsTrace(l.entity, l.history, op, at);
      }
    }
  }

  const ONE_ATTEMPT: seq<(Op, int)> := [(Queue, 0), (Start, 0), (MarkDelivered, 0), (Timeout(AckTimeout), 0)]

  /** `n` attempts, each delivered and never acknowledged. */
  function WorstCase(n: nat): seq<(Op, int)>
    requires n >= 1
  {
    if n == 1 then ONE_ATTEMPT else WorstCase(n - 1) + ([(Retry, 0)] + ONE_ATTEMPT)
  }

  lemma {:induction false} LiveAllConcat(start: Life, a: seq<(Op, int)>, b: seq<(Op, int)>)
    ensures LiveAll(start, a + b) == LiveAll(LiveAll(start, a), b)
    decreases |b|
  {
    if b == [] {
      assert a + b == a;
    } else {
      assert (a + b)[..|a + b| - 1] == a + b[..|b| - 1];
      LiveAllConcat(start, a, b[..|b| - 1]);
    }
  }

  lemma LiveFour(l: Life, a: (Op, int), b: (Op, int), c: (Op, int), d: (Op, int))
    ensures LiveAll(l, [a, b, c, d]) == Live(Live(Live(Live(l, a.0, a.1), b.0, b.1), c.0, c.1), d.0, d.1)
  {
    assert [a, b, c, d][..3] == [a, b, c];
    assert [a, b, c][..2] == [a, b];
    assert [a, b][..1] == [a];
    RunOne(Live, l, a);
    assert LiveAll(l, [a, b]) == Live(LiveAll(l, [a]), b.0, b.1);
    assert LiveAll(l, [a, b, c]) == Live(LiveAll(l, [a, b]), c.0, c.1);
  }

  lemma AttemptEmitsFour(l: Life)
    requires l.entity.status == ResultReady || l.entity.status == Retrying
    ensures var l' := LiveAll(l, ONE_ATTEMPT);
      l'.entity.status == TimedOut && |l'.history| == |l.history| + 4
      && l'.entity.attempt == l.entity.attempt && l'.entity.maxRetries == l.entity.maxRetries
  {
    hide LiveAll;
    LiveFour(l, ONE_ATTEMPT[0], ONE_ATTEMPT[1], ONE_ATTEMPT[2], ONE_ATTEMPT[3]);
  }

  /** The bound is attained: with `n` retries a delivery can emit exactly `5 * n` events. */
  lemma {:induction false} BudgetIsTight(runId: Id, maxRetries: nat, n: nat)
    requires 1 <= n <= maxRetries
    ensures var l := LiveAll(Born(runId, maxRetries, 0), WorstCase(n));
      |l.history| == 5 * n && l.entity.status == TimedOut && l.entity.attempt == n
      && l.entity.maxRetries == maxRetries
    decreases n
  {
    hide LiveAll, Live;
    var born := Born(runId, maxRetries, 0);
    if n == 1 {
      AttemptEmitsFour(born);
    } else {
      BudgetIsTight(runId, maxRetries, n - 1);
      var l := LiveAll(born, WorstCase(n - 1));
      LiveAllConcat(born, WorstCase(n - 1), [(Retry, 0)] + ONE_ATTEMPT);
      LiveAllConcat(l, [(Retry, 0)], ONE_ATTEMPT);
      LiveOne(l, (Retry, 0));
      RetryStartsAttempt(l);
      AttemptEmitsFour(Live(l, Retry, 0));
    }
  }

  lemma RetryStartsAttempt(l: Life)
    requires l.entity.status == TimedOut && l.entity.attempt < l.entity.maxRetries
    ensures var l' := Live(l, Retry, 0);
      l'.entity.status == Retrying && |l'.history| == |l.history| + 1
      && l'.entity.attempt == l.entity.attempt + 1 && l'.entity.maxRetries == l.entity.maxRetries
  {
  }

  lemma LiveOne(l: Life, call: (Op, int))
    ensures LiveAll(l, [call]) == Live(l, call.0, call.1)
  {
    RunOne(Live, l, call);
  }

  lemma FirstAttemptTimesOut(runId: Id)
    ensures var l := Live(Live(Live(Live(Born(runId, 3, 0), Queue, 1), Start, 10), MarkDelivered, 20),
                          Timeout(AckTimeout), 30);
      l.entity.status == TimedOut && l.entity.deliveredAt == Some(20)
      && l.entity.attempt == 1 && l.entity.maxRetries == 3
  {
  }

  lemma SecondAttemptStarts(l: Life)
    requires l.entity.status == TimedOut && l.entity.deliveredAt == Some(20)
    requires l.entity.attempt == 1 && l.entity.maxRetries == 3
    ensures var l' := Live(Live(Live(Live(l, Retry, 40), Queue, 50), Queue, 60), Start, 100);
      NoticeOf(0, l'.entity, 100).deliveryDurationMs == Some(-80)
  {
  }

  /** What does not hold: durations can be negative, because the delivery time of
      an earlier attempt survives a retry. */
  lemma DurationCanBeNegative(runId: Id)
    ensures var l := LiveAll(Born(runId, 3, 0),
        [(Queue, 1), (Start, 10), (MarkDelivered, 20), (Timeout(AckTimeout), 30)]
        + [(Retry, 40), (Queue, 50), (Queue, 60), (Start, 100)]);
      NoticeOf(0, l.entity, 100).deliveryDurationMs == Some(-80)
  {
    hide LiveAll, Live, NoticeOf;
    var a := [(Queue, 1), (Start, 10), (MarkDelivered, 20), (Timeout(AckTimeout), 30)];
    var b := [(Retry, 40), (Queue, 50), (Queue, 60), (Start, 100)];
    LiveAllConcat(Born(runId, 3, 0), a, b);
    LiveFour(Born(runId, 3, 0), a[0], a[1], a[2], a[3]);
    LiveFour(LiveAll(Born(runId, 3, 0), a), b[0], b[1], b[2], b[3]);
    FirstAttemptTimesOut(runId);
    SecondAttemptStarts(LiveAll(Born(runId, 3, 0), a));
  }

  /** The times a delivery carries when the clock never goes back: only a restart
      can leave a delivery time behind its start. */
  ghost predicate Clocked(d: Delivery, clock: int) {
    && (d.deliveryStartedAt.Some? ==> d.deliveryStartedAt.value <= clock)
    && (d.deliveredAt.Some? ==> d.deliveryStartedAt.Some? && d.deliveredAt.value <= clock)
    && (d.deliveredAt.Some? && (d.attempt == 1 || d.status in {Delivered, Acked})
        ==> d.deliveryStartedAt.value <= d.deliveredAt.value)
    && (d.attempt == 1 && d.status in {ResultReady, Pending} ==> d.deliveryStartedAt.None?)
    && (d.status == Delivering ==> d.deliveryStartedAt.Some?)
    && (d.attempt == 1 && d.status == Delivering ==> d.deliveredAt.None?)
    && d.attempt >= 1 && (d.status == Retrying ==> d.attempt >= 2)
  }

  predicate InOrder(calls: seq<(Op, int)>) {
    forall i, j :: 0 <= i < j < |calls| ==> calls[i].1 <= calls[j].1
  }

  lemma StepIsClocked(d: Delivery, op: Op, at: int)
    requires Clocked(d, at) && Apply(d, op, at).Ok?
    ensures Clocked(Apply(d, op, at).value, at)
  {
  }

  lemma ClockedLater(d: Delivery, at: int, clock: int)
    requires Clocked(d, at) && at <= clock
    ensures Clocked(d, clock)
  {
  }

  lemma BornClocked(runId: Id, maxRetries: int, clock: int)
    ensures Clocked(NewDelivery(runId, maxRetries, 0), clock)
  {
  }

  lemma {:induction false} LifeIsClocked(runId: Id, maxRetries: int, calls: seq<(Op, int)>, clock: int)
    requires InOrder(calls) && forall i :: 0 <= i < |calls| ==> calls[i].1 <= clock
    ensures Clocked(LiveAll(Born(runId, maxRetries, 0), calls).entity, clock)
    decreases |calls|
  {
    hide Clocked, Apply;
    if calls == [] {
      BornClocked(runId, maxRetries, clock);
    } else {
      var (op, at) := calls[|calls| - 1];
      var l := LiveAll(Born(runId, maxRetries, 0), calls[..|calls| - 1]);
      LifeIsClocked(runId, maxRetries, calls[..|calls| - 1], at);
      if Apply(l.entity, op, at).Ok? {
        StepIsClocked(l.entity, op, at);
      }
      ClockedLater(LiveAll(Born(runId, maxRetries, 0), calls).entity, at, clock);
    }
  }

  predicate IsNegative(duration: Option<int>) { duration.Some? && duration.value < 0 }

  /** The event of an accepted operation reports a negative duration exactly when
      the delivery had been delivered before the start it counts from: that of the
      operation itself for a start, and the last one otherwise. A new delivery
      resets the times. */
  lemma NegativeDuration(d: Delivery, op: Op, id: Id, now: int)
    requires Apply(d, op, now).Ok? && Clocked(d, now)
    ensures IsNegative(NoticeOf(id, Apply(d, op, now).value, now).deliveryDurationMs)
      <==> op != MarkDelivered && d.deliveredAt.Some?
           && if op == Start then d.deliveredAt.value < now
              else d.deliveryStartedAt.Some? && d.deliveredAt.value < d.deliveryStartedAt.value
  {
  }

  /** The time of the last accepted call of one operation. */
  function LastTime(start: Life, calls: seq<(Op, int)>, op: Op): Option<int> {
    if calls == [] then None
    else
      var before, last := calls[..|calls| - 1], calls[|calls| - 1];
      if last.0 == op && Apply(LiveAll(start, before).entity, op, last.1).Ok? then Some(last.1)
      else LastTime(start, before, op)
  }

  lemma {:induction false} TimesAreLast(runId: Id, maxRetries: int, calls: seq<(Op, int)>)
    ensures var born := Born(runId, maxRetries, 0);
      var d := LiveAll(born, calls).entity;
      d.deliveryStartedAt == LastTime(born, calls, Start) && d.deliveredAt == LastTime(born, calls, MarkDelivered)
    decreases |calls|
  {
    if calls != [] {
      var before, last := calls[..|calls| - 1], calls[|calls| - 1];
      TimesAreLast(runId, maxRetries, before);
      TimesAfter(LiveAll(Born(runId, maxRetries, 0), before), last.0, last.1);
      hide Live, Apply;
    }
  }

  lemma TimesAfter(l: Life, op: Op, now: int)
    ensures var d, d' := l.entity, Live(l, op, now).entity;
      var done := Apply(d, op, now).Ok?;
      && d'.deliveryStartedAt == (if op == Start && done then Some(now) else d.deliveryStartedAt)
      && d'.deliveredAt == (if op == MarkDelivered && done then Some(now) else d.deliveredAt)
  {
    hide Allowed;
  }

  /** Over every run in clock order: the event that the run ends in, whatever its
      kind, reports a negative duration exactly when the delivery was last started
      strictly later than it was last delivered. */
  lemma NegativeDurationInRuns(runId: Id, maxRetries: int, calls: seq<(Op, int)>, id: Id, now: int)
    requires InOrder(calls) && forall i :: 0 <= i < |calls| ==> calls[i].1 <= now
    ensures var born := Born(runId, maxRetries, 0);
      var started, delivered := LastTime(born, calls, Start), LastTime(born, calls, MarkDelivered);
      IsNegative(NoticeOf(id, LiveAll(born, calls).entity, now).deliveryDurationMs)
      <==> started.Some? && delivered.Some? && delivered.value < started.value
  {
    hide LiveAll, LastTime;
    LifeIsClocked(runId, maxRetries, calls, now);
    TimesAreLast(runId, maxRetries, calls);
  }

  /** The same, foretold before the last call of a run. */
  lemma NegativeDurationForetold(runId: Id, maxRetries: int, calls: seq<(Op, int)>, op: Op, id: Id, now: int)
    requires InOrder(calls) && forall i :: 0 <= i < |calls| ==> calls[i].1 <= now
    requires Apply(LiveAll(Born(runId, maxRetries, 0), calls).entity, op, now).Ok?
    ensures var d := LiveAll(Born(runId, maxRetries, 0), calls).entity;
      IsNegative(NoticeOf(id, Apply(d, op, now).value, now).deliveryDurationMs)
      <==> op != MarkDelivered && d.deliveredAt.Some?
           && if op == Start then d.deliveredAt.value < now
              else d.deliveryStartedAt.Some? && d.deliveredAt.value < d.deliveryStartedAt.value
  {
    hide LiveAll, Apply;
    LifeIsClocked(runId, maxRetries, calls, now);
    NegativeDuration(LiveAll(Born(runId, maxRetries, 0), calls).entity, op, id, now);
  }

  /** With a clock that never goes back, a first attempt, and any attempt that was
      just delivered or acknowledged, reports a duration that is not negative. */
  lemma HonestDurations(runId: Id, maxRetries: int, calls: seq<(Op, int)>, now: int)
    requires InOrder(calls) && forall i :: 0 <= i < |calls| ==> calls[i].1 <= now
    ensures var d := LiveAll(Born(runId, maxRetries, 0), calls).entity;
      var duration := NoticeOf(0, d, now).deliveryDurationMs;
      duration.Some? && (d.attempt == 1 || d.status in {Delivered, Acked}) ==> duration.value >= 0
  {
    hide LiveAll;
    LifeIsClocked(runId, maxRetries, calls, now);
  }

  /** Starting reports a negative duration exactly when an earlier attempt had
      already been delivered, at an earlier time, whatever the clock did before. */
  lemma StartDuration(d: Delivery, id: Id, now: int)
    requires Apply(d, Start, now).Ok?
    ensures IsNegative(NoticeOf(id, Apply(d, Start, now).value, now).deliveryDurationMs)
      <==> d.deliveredAt.Some? && d.deliveredAt.value < now
  {
  }

  // ----- the manager -----

  lemma ApplyKeepsConsistent(deliveries: map<Id, Delivery>, runIndex: map<Id, Id>, log: seq<Event<Notice>>, id: Id,
                             op: Op, now: int)
    requires Consistent(deliveries, runIndex, log) && id in deliveries && Apply(deliveries[id], op, now).Ok?
    ensures var d := Apply(deliveries[id], op, now).value;
      Consistent(deliveries[id := d], runIndex, log + [Event(|log| + 1, NoticeOf(id, d, now))])
  {
    hide TraceInv, History, Apply;
    assert TraceInv(deliveries[id], History(log, EntityOf, KindOf, id));
    StepKeepsTrace(deliveries[id], History(log, EntityOf, KindOf, id), op, now);
    ExplainedStep(deliveries, log, id, Apply(deliveries[id], op, now).value, |log| + 1, now);
  }

  /** The run index is exactly the inverse of the delivery table. */
  ghost predicate IndexExact(deliveries: map<Id, Delivery>, runIndex: map<Id, Id>) {
    (forall run :: run in runIndex ==> runIndex[run] in deliveries && deliveries[runIndex[run]].runId == run)
    && (forall id :: id in deliveries ==> deliveries[id].runId in runIndex && runIndex[deliveries[id].runId] == id)
  }

  /** Every delivery is explained by its own part of the log. */
  ghost predicate Explained(deliveries: map<Id, Delivery>, log: seq<Event<Notice>>) {
    (forall id :: id in deliveries ==> TraceInv(deliveries[id], History(log, EntityOf, KindOf, id)))
    && (forall id :: id !in deliveries ==> History(log, EntityOf, KindOf, id) == [])
  }

  ghost predicate Consistent(deliveries: map<Id, Delivery>, runIndex: map<Id, Id>, log: seq<Event<Notice>>) {
    Dense(log) && IndexExact(deliveries, runIndex) && Explained(deliveries, log)
  }

  /** One delivery per run id. */
  lemma OneDeliveryPerRun(deliveries: map<Id, Delivery>, runIndex: map<Id, Id>, log: seq<Event<Notice>>, a: Id, b: Id)
    requires Consistent(deliveries, runIndex, log) && a in deliveries && b in deliveries
    requires deliveries[a].runId == deliveries[b].runId
    ensures a == b
  {
    assert runIndex[deliveries[a].runId] == a;
  }

  lemma ExplainedStep(deliveries: map<Id, Delivery>, log: seq<Event<Notice>>, id: Id, d: Delivery, at: int, now: int)
    requires Explained(deliveries, log)
    requires TraceInv(d, History(log, EntityOf, KindOf, id) + [d.status])
    ensures Explained(deliveries[id := d], log + [Event(at, NoticeOf(id, d, now))])
  {
    hide TraceInv, History;
    forall x {
      HistoryAppend(log, Event(at, NoticeOf(id, d, now)), EntityOf, KindOf, x);
    }
  }

  lemma MarkingKeepsConsistent(deliveries: map<Id, Delivery>, runIndex: map<Id, Id>, log: seq<Event<Notice>>, id: Id)
    requires Consistent(deliveries, runIndex, log) && id in deliveries
    ensures Consistent(deliveries[id := deliveries[id].(duplicateSuppressed := true)], runIndex, log)
  {
    hide TraceInv, History;
    MarkingKeepsTrace(deliveries[id], History(log, EntityOf, KindOf, id));
  }

  lemma NewKeepsConsistent(deliveries: map<Id, Delivery>, runIndex: map<Id, Id>, log: seq<Event<Notice>>, id: Id,
                           runId: Id, maxRetries: int, now: int)
    requires Consistent(deliveries, runIndex, log) && id !in deliveries && runId !in runIndex
    ensures var d := NewDelivery(runId, maxRetries, now);
      Consistent(deliveries[id := d], runIndex[runId := id], log + [Event(|log| + 1, NoticeOf(id, d, now))])
  {
    hide TraceInv, History, NoticeOf;
    var d := NewDelivery(runId, maxRetries, now);
    NewTrace(runId, maxRetries, now);
    assert [] + [ResultReady] == [ResultReady];
    ExplainedStep(deliveries, log, id, d, |log| + 1, now);
    hide Explained;
  }

  lemma ApplyBySteps(d: Delivery, op: Op, now: int)
    requires op == Retry ==> d.status == Failed || d.status == TimedOut
    ensures var moved, reason := d.(status := Target(d, op), updatedAt := now), Reason(d, op);
      Apply(d, op, now) ==
        if !Allowed(d.status, Target(d, op)) then Err(InvalidTransition)
        else Ok(Effect(if reason.Some? then moved.(failureCode := reason) else moved, op))
  {
    hide Allowed, Effect, Reason, Target;
  }

  class DeliveryManager {
    var deliveries: map<Id, Delivery>
    var runIndex: map<Id, Id>
    const buffer: CursorEventBuffer<Notice>
    const defaultMaxRetries: int

    ghost function Log(): seq<Event<Notice>>
      reads buffer
    {
      buffer.pushed
    }

    ghost predicate Valid()
      reads this, buffer
    {
      buffer.Valid() && buffer.nextId == |Log()| && Consistent(deliveries, runIndex, Log())
    }

    constructor (maxEvents: nat, defaultMaxRetries: int)
      ensures Valid() && deliveries == map[] && runIndex == map[] && Log() == []
      ensures fresh(buffer)
    {
      deliveries, runIndex := map[], map[];
      buffer := new CursorEventBuffer<Notice>(if maxEvents > 0 then maxEvents else 500);
      this.defaultMaxRetries := defaultMaxRetries;
    }

    /** In every state of the manager a run id leads to exactly one delivery, and each
        delivery has emitted no more events than its attempts allow. */
    lemma DeliveriesAreUnique()
      requires Valid()
      ensures forall a, b :: a in deliveries && b in deliveries && deliveries[a].runId == deliveries[b].runId ==> a == b
      ensures forall run :: run in runIndex <==> exists id :: id in deliveries && deliveries[id].runId == run
      ensures forall id :: id in deliveries ==>
        |History(Log(), EntityOf, KindOf, id)| <= 5 * Attempts(deliveries[id])
    {
      forall a, b | a in deliveries && b in deliveries && deliveries[a].runId == deliveries[b].runId ensures a == b {
        OneDeliveryPerRun(deliveries, runIndex, Log(), a, b);
      }
      forall id | id in deliveries ensures |History(Log(), EntityOf, KindOf, id)| <= 5 * Attempts(deliveries[id]) {
        assert TraceInv(deliveries[id], History(Log(), EntityOf, KindOf, id));
      }
    }

    method EmitEvent(id: Id, state: Delivery, now: int)
      requires buffer.Valid() && Dense(buffer.pushed) && buffer.nextId == |buffer.pushed|
      modifies buffer
      ensures buffer.Valid() && Dense(buffer.pushed) && buffer.nextId == |buffer.pushed|
      ensures Log() == old(Log()) + [Event(|old(Log())| + 1, NoticeOf(id, state, now))]
    {
      var eventId := buffer.AllocateId();
      buffer.Push(Event(eventId, NoticeOf(id, state, now)));
    }

    /** One delivery per run: a second registration only marks the first. */
    method RegisterDelivery(runId: Id, maxRetries: Option<int>, newId: Id, now: int) returns (id: Id)
      requires Valid() && newId !in deliveries
      modifies this, buffer
      ensures Valid()
      ensures runId in old(runIndex) ==>
        (id == old(runIndex)[runId] && runIndex == old(runIndex) && Log() == old(Log())
         && deliveries == old(deliveries)[id := old(deliveries)[id].(duplicateSuppressed := true)])
      ensures runId !in old(runIndex) ==>
        (id == newId && runIndex == old(runIndex)[runId := id]
         && deliveries == old(deliveries)[id := NewDelivery(runId, maxRetries.GetOr(defaultMaxRetries), now)]
         && Log() == old(Log()) + [Event(|old(Log())| + 1, NoticeOf(id, deliveries[id], now))])
    {
      hide TraceInv, History, Explained, NoticeOf;
      if runId in runIndex {
        id := runIndex[runId];
        MarkingKeepsConsistent(deliveries, runIndex, Log(), id);
        deliveries := deliveries[id := deliveries[id].(duplicateSuppressed := true)];
        return;
      }
      id := newId;
      var state := NewDelivery(runId, maxRetries.GetOr(defaultMaxRetries), now);
      NewKeepsConsistent(deliveries, runIndex, Log(), id, runId, state.maxRetries, now);
      deliveries := deliveries[id := state];
      runIndex := runIndex[runId := id];
      EmitEvent(id, state, now);
    }

    /** The shared transition: look up, check the table, mutate, emit. */
    method Transition(id: Id, op: Op, now: int) returns (r: Result<Delivery, DeliveryError>)
      requires Valid()
      requires op == Retry && id in deliveries ==> deliveries[id].status == Failed || deliveries[id].status == TimedOut
      modifies this, buffer
      ensures Valid() && Outcome(old(deliveries), old(runIndex), old(Log()), id, op, now, r)
    {
      hide TraceInv, History, IndexExact, Explained, Effect, NoticeOf, Reason, Allowed, Apply, Target;
      if id !in deliveries {
        return Err(NotFound);
      }
      var state := deliveries[id];
      var target := Target(state, op);
      ApplyBySteps(state, op, now);
      if !Allowed(state.status, target) {
        return Err(InvalidTransition);
      }
      var failureCode := Reason(state, op);
      state := state.(status := target, updatedAt := now);
      if failureCode.Some? {
        state := state.(failureCode := failureCode);
      }
      state := Effect(state, op);
      deliveries := deliveries[id := state];
      ApplyKeepsConsistent(old(deliveries), runIndex, Log(), id, op, now);
      EmitEvent(id, state, now);
      r := Ok(state);
    }

    method Perform(id: Id, op: Op, now: int) returns (r: Result<Delivery, DeliveryError>)
      requires Valid()
      modifies this, buffer
      ensures Valid() && Outcome(old(deliveries), old(runIndex), old(Log()), id, op, now, r)
    {
      if op == Retry {
        if id !in deliveries {
          return Err(NotFound);
        }
        if deliveries[id].status != Failed && deliveries[id].status != TimedOut {
          return Err(InvalidRetry);
        }
      }
      r := Transition(id, op, now);
    }

    /** The reply and the new state of one call. */
    ghost predicate Outcome(before: map<Id, Delivery>, index: map<Id, Id>, log: seq<Event<Notice>>, id: Id, op: Op,
                            now: int, r: Result<Delivery, DeliveryError>)
      reads this, buffer
    {
      && r == (if id in before then Apply(before[id], op, now) else Err(NotFound))
      && runIndex == index
      && deliveries == (if r.Ok? then before[id := r.value] else before)
      && Log() == (if r.Ok? then log + [Event(|log| + 1, NoticeOf(id, r.value, now))] else log)
    }
  }
}
