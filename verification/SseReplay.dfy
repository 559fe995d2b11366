/** Resumable event streams: numbered events, bounded replay buffers, and the
    Last-Event-ID cursors that clients send back when they reconnect. */
module SseReplay {
  import opened Basics
  import opened Text

  datatype Numbered<+P> = Numbered(number: nat, data: P)

  function Min(a: nat, b: nat): nat { if a < b then a else b }

  function Minus(a: nat, b: nat): nat { if a < b then 0 else a - b }

  // ----- events after a cursor -----

  /** The last `n` events of a history, numbered from its start. */
  function Tail<P>(history: seq<P>, n: nat): (t: seq<Numbered<P>>)
    requires n <= |history|
  {
    seq(n, i requires 0 <= i < n =>
      Numbered(|history| - n + i + 1, history[|history| - n + i]))
  }

  /** A cursor need not be a whole number. */
  function After<P>(events: seq<Numbered<P>>, cursor: real): seq<Numbered<P>> {
    if events == [] then []
    else if events[0].number as real > cursor then [events[0]] + After(events[1..], cursor)
    else After(events[1..], cursor)
  }

  /** Replaying a buffer after a cursor yields exactly the buffered events that
      the cursor has not seen. */
  lemma {:induction false} ReplayIsTail<P>(history: seq<P>, n: nat, cursor: real)
    requires n <= |history| && cursor >= 0.0
    ensures After(Tail(history, n), cursor) == Tail(history, Min(n, Minus(|history|, cursor.Floor)))
    decreases n
  {
    if n > 0 {
      var t := Tail(history, n);
      assert t[1..] == Tail(history, n - 1);
      ReplayIsTail(history, n - 1, cursor);
      var first := |history| - n + 1;
      AboveFloor(first, cursor);
      if first > cursor.Floor {
        assert Tail(history, n) == [t[0]] + Tail(history, n - 1);
      }
    }
  }

  lemma AboveFloor(n: int, x: real)
    ensures n as real > x <==> n > x.Floor
  {
  }

  lemma TailGrows<P>(history: seq<P>, n: nat, x: P)
    requires n <= |history|
    ensures Tail(history, n) + [Numbered(|history| + 1, x)] == Tail(history + [x], n + 1)
  {
  }

  lemma TailTrims<P>(history: seq<P>, n: nat, k: nat)
    requires k <= n <= |history|
    ensures Tail(history, n)[n - k..] == Tail(history, k)
  {
  }

  /** What a buffer of `capacity` events keeps of a history. */
  function Kept<P>(history: seq<P>, capacity: nat): seq<Numbered<P>> {
    Tail(history, Min(|history|, capacity))
  }

  method PushBounded<P>(buffer: seq<Numbered<P>>, ghost history: seq<P>, capacity: nat, event: Numbered<P>)
    returns (next: seq<Numbered<P>>)
    requires buffer == Kept(history, capacity) && event.number == |history| + 1
    ensures next == Kept(history + [event.data], capacity)
  {
    TailGrows(history, Min(|history|, capacity), event.data);
    next := buffer + [event];
    if |next| > capacity {
      TailTrims(history + [event.data], Min(|history|, capacity) + 1, capacity);
      next := next[|next| - capacity..];
    }
  }

  // ----- event ids -----

  function FormatId(id: string, n: nat): string {
    id + ":" + ToDecimal(n)
  }

  /** What a text means as a number, as far as that is finite. Nothing is supposed
      about it but that it reads plain numerals. */
  type NumberReader = string -> Option<real>

  ghost predicate ReadsNumerals(number: NumberReader) {
    forall n: nat :: number(ToDecimal(n)) == Some(n as real)
  }

  function ParseNumber(s: string, number: NumberReader): (x: Option<real>)
    ensures x.Some? ==> x.value >= 0.0
  {
    if number(s).Some? && number(s).value >= 0.0 then number(s) else None
  }

  function ParseId(raw: string, number: NumberReader): (id: Option<(string, real)>)
    ensures id.Some? ==> id.value.1 >= 0.0
  {
    var colon := LastColon(raw);
    if colon < 1 then None
    else
      var n := ParseNumber(raw[colon + 1..], number);
      if n.None? then None else Some((raw[..colon], n.value))
  }

  lemma {:induction false} LastColonIs(s: string, i: nat)
    requires i < |s| && s[i] == ':' && forall j :: i < j < |s| ==> s[j] != ':'
    ensures LastColon(s) == i
  {
    var k := LastColon(s);
    assert k >= i;
  }

  /** Parsing undoes formatting for every task id but the empty one, colons in
      the id included. */
  lemma IdRoundTrip(id: string, n: nat, number: NumberReader)
    requires ReadsNumerals(number)
    ensures ParseId(FormatId(id, n), number) == Some((id, n as real)) <==> id != ""
    ensures id == "" ==> ParseId(FormatId(id, n), number).None?
  {
    var text, digits := FormatId(id, n), ToDecimal(n);
    assert text[..|id|] == id && text[|id| + 1..] == digits;
    forall j | |id| < j < |text| ensures text[j] != ':' {
      assert text[j] in digits;
    }
    LastColonIs(text, |id|);
  }

  /** Plain numerals, and nothing else. */
  function PlainNumber(s: string): Option<real> {
    if IsNumeral(s) then Some(FromDecimal(s) as real) else None
  }

  lemma PlainReadsNumerals()
    ensures ReadsNumerals(PlainNumber)
  {
    forall n: nat ensures PlainNumber(ToDecimal(n)) == Some(n as real) {
      DecimalRoundTrip(n);
    }
  }

  /** An id never passes for the id of another task or position. */
  lemma IdInjective(id: string, n: nat, id': string, n': nat)
    requires FormatId(id, n) == FormatId(id', n') && id != "" && id' != ""
    ensures id == id' && n == n'
  {
    PlainReadsNumerals();
    IdRoundTrip(id, n, PlainNumber);
    IdRoundTrip(id', n', PlainNumber);
  }

  const OPERATOR_PREFIX := "operator:"

  function FormatOperatorId(n: nat): string { OPERATOR_PREFIX + ToDecimal(n) }

  function ParseOperatorId(raw: string, number: NumberReader): (parsed: Option<real>)
    ensures parsed.Some? ==> parsed.value >= 0.0
  {
    if |raw| < |OPERATOR_PREFIX| || raw[..|OPERATOR_PREFIX|] != OPERATOR_PREFIX then None
    else ParseNumber(raw[|OPERATOR_PREFIX|..], number)
  }

  lemma OperatorIdRoundTrip(n: nat, number: NumberReader)
    requires ReadsNumerals(number)
    ensures ParseOperatorId(FormatOperatorId(n), number) == Some(n as real)
  {
    assert FormatOperatorId(n)[..|OPERATOR_PREFIX|] == OPERATOR_PREFIX;
    assert FormatOperatorId(n)[|OPERATOR_PREFIX|..] == ToDecimal(n);
  }

  // ----- the operator stream -----

  const OPERATOR_EVENT_BUFFER_LIMIT: nat := 200

  datatype Window = Window(oldestBufferedSeq: Option<nat>, currentSeq: nat)

  /** The cursor to replay from, or `None`: start over with a snapshot. */
  function ResolveReplay(raw: string, w: Window, number: NumberReader): (after: Option<real>)
    ensures after.Some? ==> after.value >= 0.0
  {
    if raw == "" then None
    else
      var parsed := ParseOperatorId(raw, number);
      if parsed.None? then None
      else if parsed.value > w.currentSeq as real then None
      else if w.oldestBufferedSeq.Some? && parsed.value < (w.oldestBufferedSeq.value - 1) as real then None
      else parsed
  }

  function WindowOf<P>(history: seq<P>): Window {
    var kept := Kept(history, OPERATOR_EVENT_BUFFER_LIMIT);
    Window(if kept == [] then None else Some(kept[0].number), |history|)
  }

  /** However a cursor is spelled, it is accepted exactly when it is not after the
      current event and nothing after it has been evicted; the replay is then every
      later event. */
  lemma AcceptedReplaysEverything<P>(history: seq<P>, raw: string, number: NumberReader)
    ensures var parsed := ParseOperatorId(raw, number);
      ResolveReplay(raw, WindowOf(history), number).Some?
      <==> parsed.Some? && (|history| - OPERATOR_EVENT_BUFFER_LIMIT) as real <= parsed.value <= |history| as real
    ensures var r := ResolveReplay(raw, WindowOf(history), number);
      r.Some? ==> (
        && 0 <= r.value.Floor <= |history|
        && After(Kept(history, OPERATOR_EVENT_BUFFER_LIMIT), r.value) == Tail(history, |history| - r.value.Floor))
  {
    var r := ResolveReplay(raw, WindowOf(history), number);
    if r.Some? {
      ReplayIsTail(history, Min(|history|, OPERATOR_EVENT_BUFFER_LIMIT), r.value);
    }
  }

  class OperatorStream<P> {
    const number: NumberReader
    var eventSeq: nat
    var buffer: seq<Numbered<P>>
    /** Every event ever emitted. */
    ghost var history: seq<P>

    ghost predicate Valid()
      reads this
    {
      eventSeq == |history| && buffer == Kept(history, OPERATOR_EVENT_BUFFER_LIMIT)
    }

    constructor (number: NumberReader)
      ensures Valid() && history == [] && this.number == number
    {
      this.number := number;
      eventSeq, buffer, history := 0, [], [];
    }

    method Emit(data: P)
      requires Valid()
      modifies this
      ensures Valid() && history == old(history) + [data]
    {
      buffer := PushBounded(buffer, history, OPERATOR_EVENT_BUFFER_LIMIT, Numbered(eventSeq + 1, data));
      eventSeq := eventSeq + 1;
      history := history + [data];
    }

    /** What a reconnecting client is sent: the events it missed, or nothing and a
        fresh snapshot. */
    method Reconnect(raw: string) returns (after: Option<real>, missed: seq<Numbered<P>>)
      requires Valid()
      ensures after == ResolveReplay(raw, WindowOf(history), number)
      ensures after.Some? ==>
        0 <= after.value.Floor <= |history| && missed == Tail(history, |history| - after.value.Floor)
      ensures after.None? ==> missed == []
    {
      after := ResolveReplay(raw, Window(if buffer == [] then None else Some(buffer[0].number), eventSeq), number);
      missed := if after.Some? then After(buffer, after.value) else [];
      AcceptedReplaysEverything(history, raw, number);
    }
  }

  // ----- the streams of the tasks -----

  /** The id of the snapshot that opens a stream: as many events as are buffered. */
  function SnapshotCursor<P>(history: seq<P>, capacity: nat): nat { |Kept(history, capacity)| }

  /** The snapshot never claims more than has happened, and it claims all of it
      exactly as long as the buffer has not overflowed. */
  lemma SnapshotCursorLags<P>(history: seq<P>, capacity: nat)
    ensures SnapshotCursor(history, capacity) <= |history|
    ensures SnapshotCursor(history, capacity) == |history| <==> |history| <= capacity
  {
  }

  /** A client that saw the snapshot of `history` and reconnects after `more` has
      happened misses no buffered event. What it is sent a second time is part of
      what the snapshot already covered, and there is none of that until the
      buffer overflows. */
  lemma ReconnectSkipsNothing<P>(history: seq<P>, more: seq<P>, capacity: nat)
    ensures var sent := After(Kept(history + more, capacity), SnapshotCursor(history, capacity) as real);
      && (forall e :: e in Kept(history + more, capacity) && e.number > |history| ==> e in sent)
      && (|history| <= capacity ==> sent == Tail(history + more, Min(capacity, |more|)))
      && (|history| > capacity ==> sent == Tail(history + more, Min(capacity, |history| + |more| - capacity)))
  {
    hide Tail, After, Kept;
    var all := history + more;
    KeptSize(history, capacity);
    var c := SnapshotCursor(history, capacity);
    KeptTail(all, capacity);
    ReplayIsTail(all, Min(|all|, capacity), c as real);
    LaterEvents(all, capacity, |history|, Min(Min(|all|, capacity), Minus(|all|, c)));
  }

  lemma KeptSize<P>(history: seq<P>, capacity: nat)
    ensures SnapshotCursor(history, capacity) == Min(|history|, capacity)
  {
  }

  lemma KeptTail<P>(history: seq<P>, capacity: nat)
    ensures Kept(history, capacity) == Tail(history, Min(|history|, capacity))
  {
  }

  /** A tail that starts early enough contains every kept event after a position. */
  lemma LaterEvents<P>(all: seq<P>, capacity: nat, at: nat, k: nat)
    requires k <= |all| && at <= |all| && k >= Min(Min(|all|, capacity), |all| - at)
    ensures forall e :: e in Kept(all, capacity) && e.number > at ==> e in Tail(all, k)
  {
    var sent := Tail(all, k);
    forall e | e in Kept(all, capacity) && e.number > at ensures e in sent {
      assert e == sent[e.number - 1 - (|all| - k)];
    }
  }

  predicate Listens(listeners: map<string, set<Id>>, taskId: string, listener: Id) {
    taskId in listeners && listener in listeners[taskId]
  }

  class TaskStreams<P> {
    const maxBufferedEventsPerTask: nat
    const number: NumberReader
    var listeners: map<string, set<Id>>
    var buffers: map<string, seq<Numbered<P>>>
    var seqs: map<string, nat>
    /** Every update of a task since somebody first listened. */
    ghost var histories: map<string, seq<P>>

    ghost predicate Valid()
      reads this
    {
      && buffers.Keys == seqs.Keys == histories.Keys
      && (forall t :: t in listeners ==> listeners[t] != {})
      && (forall t :: t in histories ==>
            seqs[t] == |histories[t]| && buffers[t] == Kept(histories[t], maxBufferedEventsPerTask))
    }

    ghost function HistoryOf(taskId: string): seq<P>
      reads this
    {
      if taskId in histories then histories[taskId] else []
    }

    constructor (maxBufferedEventsPerTask: nat, number: NumberReader)
      ensures Valid() && histories == map[] && listeners == map[] && this.number == number
    {
      this.number := number;
      this.maxBufferedEventsPerTask := maxBufferedEventsPerTask;
      listeners, buffers, seqs, histories := map[], map[], map[], map[];
    }

    method Subscribe(taskId: string, listener: Id)
      requires Valid()
      modifies this`listeners
      ensures Valid()
      ensures listeners == old(listeners)[
        taskId := (if taskId in old(listeners) then old(listeners)[taskId] else {}) + {listener}]
    {
      var current := if taskId in listeners then listeners[taskId] else {};
      listeners := listeners[taskId := current + {listener}];
    }

    method Unsubscribe(taskId: string, listener: Id)
      requires Valid()
      modifies this`listeners
      ensures Valid()
      ensures forall t, l ::
        Listens(listeners, t, l) <==> Listens(old(listeners), t, l) && !(t == taskId && l == listener)
    {
      if taskId in listeners {
        var current := listeners[taskId] - {listener};
        assert forall l :: Listens(listeners, taskId, l) && l != listener <==> l in current;
        listeners := if current == {} then listeners - {taskId} else listeners[taskId := current];
      }
    }

    /** Numbers and buffers an update as soon as somebody listens or ever has. */
    method EmitTaskUpdate(taskId: string, update: P) returns (notified: set<Id>)
      requires Valid()
      modifies this`buffers, this`seqs, this`histories
      ensures Valid()
      ensures notified == if taskId in listeners then listeners[taskId] else {}
      ensures histories == if taskId in old(histories) || taskId in listeners
        then old(histories)[taskId := old(HistoryOf(taskId)) + [update]] else old(histories)
    {
      notified := if taskId in listeners then listeners[taskId] else {};
      if notified == {} && taskId !in buffers {
        return;
      }
      var next := (if taskId in seqs then seqs[taskId] else 0) + 1;
      ghost var before := HistoryOf(taskId);
      var buffer := if taskId in buffers then buffers[taskId] else [];
      buffer := PushBounded(buffer, before, maxBufferedEventsPerTask, Numbered(next, update));
      seqs := seqs[taskId := next];
      buffers := buffers[taskId := buffer];
      histories := histories[taskId := before + [update]];
    }

    method ReplayTaskEvents(taskId: string, afterSeq: real) returns (events: seq<Numbered<P>>)
      requires Valid()
      ensures events == After(Kept(HistoryOf(taskId), maxBufferedEventsPerTask), afterSeq)
    {
      if taskId !in buffers {
        return [];
      }
      events := After(buffers[taskId], afterSeq);
    }

    /** The opening of a task stream: the missed events, if the client presents an
        id of this very task, and the id of the snapshot that follows. */
    method OpenStream(taskId: string, lastEventId: Option<string>)
      returns (missed: seq<Numbered<P>>, snapshotId: string)
      requires Valid()
      ensures var history := HistoryOf(taskId);
        var parsed := ParseId(lastEventId.GetOr(""), number);
        && snapshotId == FormatId(taskId, SnapshotCursor(history, maxBufferedEventsPerTask))
        && missed == if parsed.Some? && parsed.value.0 == taskId
             then Tail(history, Min(Min(|history|, maxBufferedEventsPerTask), Minus(|history|, parsed.value.1.Floor)))
             else []
      ensures ReadsNumerals(number) && taskId != "" ==>
        forall c: nat :: lastEventId == Some(FormatId(taskId, c)) ==>
          ParseId(lastEventId.value, number) == Some((taskId, c as real))
    {
      missed := [];
      if lastEventId.Some? && lastEventId.value != "" {
        var parsed := ParseId(lastEventId.value, number);
        if parsed.Some? && parsed.value.0 == taskId {
          missed := ReplayTaskEvents(taskId, parsed.value.1);
          ReplayIsTail(HistoryOf(taskId), Min(|HistoryOf(taskId)|, maxBufferedEventsPerTask), parsed.value.1);
        }
      }
      if ReadsNumerals(number) && taskId != "" {
        forall c: nat | lastEventId == Some(FormatId(taskId, c))
          ensures ParseId(lastEventId.value, number) == Some((taskId, c as real))
        {
          IdRoundTrip(taskId, c, number);
        }
      }
      var all := ReplayTaskEvents(taskId, -1.0);
      Everything(HistoryOf(taskId), maxBufferedEventsPerTask);
      snapshotId := FormatId(taskId, |all|);
    }
  }

  lemma Everything<P>(history: seq<P>, capacity: nat)
    ensures After(Kept(history, capacity), -1.0) == Kept(history, capacity)
  {
    KeepsAll(Kept(history, capacity));
  }

  lemma {:induction false} KeepsAll<P>(events: seq<Numbered<P>>)
    ensures After(events, -1.0) == events
  {
    if events != [] {
      KeepsAll(events[1..]);
    }
  }
}
