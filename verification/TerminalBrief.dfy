/** Cross-broker Terminal Brief projections: packets from another broker, in any
    order and any number of times, converge to the newest one. */
module TerminalBriefs {
  import opened Basics
  import opened Text

  datatype BriefStatus = Succeeded | Failed | Canceled | Blocked

  /** A request as it arrives. The ids are raw texts, and any other value given for
      one counts as a blank text; the remaining fields are parsed already, and
      absent when they are missing or unusable. */
  datatype Request = Request(
    parentRoundId: Option<string>,
    originBrokerId: Option<string>,
    brokerOfRecordId: Option<string>,
    childTaskId: Option<string>,
    childRunId: Option<string>,
    childWorkerId: Option<string>,
    workerId: Option<string>,
    status: Option<BriefStatus>,
    body: Option<string>,
    completedAt: Option<int>,
    emittedAt: Option<int>,
    parentRoundTotal: Option<int>,
    parentRoundOrder: Option<int>,
    terminalAck: bool)

  datatype Packet = Packet(
    parentRoundId: string,
    originBrokerId: string,
    brokerOfRecordId: Option<string>,
    childTaskId: Option<string>,
    childRunId: Option<string>,
    childWorkerId: Option<string>,
    status: BriefStatus,
    body: Option<string>,
    completedAt: int,
    emittedAt: Option<int>,
    parentRoundTotal: Option<int>,
    parentRoundOrder: Option<int>)

  datatype AckDecision = Accepted | DuplicateReplay

  datatype RejectCode =
    BadRequest | MissingDispatchMetadata | TerminalAckForbidden | WrongOrigin | MissingParent | StaleReplay

  /** The digest is an injective function of the packet, so the packet stands for it. */
  datatype Projection = Projection(
    packet: Packet,
    sourceDigest: Packet,
    emittedAt: int,
    receivedAt: int,
    replayCount: nat,
    ack: AckDecision,
    ackUpdatedAt: int)

  datatype Reply =
    | Stored(record: Projection)
    | Replayed(record: Projection)
    | Rejected(code: RejectCode)

  /** What the store learns from its surroundings for one call. */
  datatype Env = Env(
    brokerId: Option<string>,
    dispatchMetadataHolds: bool,
    parentKnown: bool,
    parentBroker: Option<string>,
    now: int)

  function Positive(n: Option<int>): Option<int> {
    if n.Some? && n.value > 0 then n else None
  }

  /** A trimmed id; a blank one counts as absent. */
  function Token(raw: Option<string>): (token: Option<string>)
    ensures token.Some? ==> token.value != "" && !IsSpace(token.value[0]) && !IsSpace(token.value[|token.value| - 1])
  {
    if raw.None? || Trim(raw.value) == "" then None else Some(Trim(raw.value))
  }

  function Normalize(r: Request): (packet: Option<Packet>)
    ensures packet.Some? ==> packet.value.parentRoundTotal == Positive(packet.value.parentRoundTotal)
    ensures packet.Some? ==> packet.value.parentRoundOrder == Positive(packet.value.parentRoundOrder)
  {
    var round, origin := Token(r.parentRoundId), Token(r.originBrokerId);
    if round.None? || origin.None? || r.status.None? || r.completedAt.None? then None
    else Some(Packet(
      round.value, origin.value, Token(r.brokerOfRecordId), Token(r.childTaskId), Token(r.childRunId),
      Token(if r.childWorkerId.Some? then r.childWorkerId else r.workerId),
      r.status.value, r.body, r.completedAt.value, r.emittedAt,
      Positive(r.parentRoundTotal), Positive(r.parentRoundOrder)))
  }

  /** A worker id that is given but blank hides the general worker id: the choice
      between the two is made before trimming. */
  lemma BlankHidesWorker(r: Request)
    requires Normalize(r).Some?
    ensures Normalize(r).value.childWorkerId.None? <==>
      if r.childWorkerId.Some? then Trim(r.childWorkerId.value) == ""
      else r.workerId.None? || Trim(r.workerId.value) == ""
  {
    hide Trim, Positive;
  }

  /** The checks between normalization and storage, in their order. */
  function Objection(p: Packet, terminalAck: bool, env: Env): Option<RejectCode> {
    if !env.dispatchMetadataHolds then Some(MissingDispatchMetadata)
    else if terminalAck then Some(TerminalAckForbidden)
    else if env.brokerId.Some? && p.brokerOfRecordId.Some? && p.brokerOfRecordId != env.brokerId then Some(WrongOrigin)
    else if env.brokerId == Some(p.originBrokerId) then Some(WrongOrigin)
    else if !env.parentKnown then Some(MissingParent)
    else if env.brokerId.Some? && env.parentBroker.Some? && env.parentBroker != env.brokerId then Some(WrongOrigin)
    else None
  }

  function ChildKey(p: Packet): string {
    if p.childTaskId.Some? then p.childTaskId.value
    else if p.childWorkerId.Some? then "worker:" + p.childWorkerId.value
    else if p.parentRoundOrder.Some? && p.parentRoundOrder.value > 0 then "order:" + ToDecimal(p.parentRoundOrder.value)
    else "broker"
  }

  function RecordKey(p: Packet): string {
    p.parentRoundId + "::" + p.originBrokerId + "::" + ChildKey(p)
  }

  // ----- when keys agree -----

  /** Who a packet speaks for. */
  datatype Child = OfTask(id: string) | OfWorker(id: string) | OfOrder(order: nat) | OfBroker

  function ChildOf(p: Packet): Child {
    if p.childTaskId.Some? then OfTask(p.childTaskId.value)
    else if p.childWorkerId.Some? then OfWorker(p.childWorkerId.value)
    else if p.parentRoundOrder.Some? && p.parentRoundOrder.value > 0 then OfOrder(p.parentRoundOrder.value)
    else OfBroker
  }

  /** A task id that spells the key of a worker, of an order, or of no child. */
  predicate Mimics(a: Child, b: Child) {
    a.OfTask? && match b
      case OfTask(_) => false
      case OfWorker(w) => a.id == "worker:" + w
      case OfOrder(n) => a.id == "order:" + ToDecimal(n)
      case OfBroker => a.id == "broker"
  }

  /** Two packets speak for the same child, or one task id passes for the other child. */
  predicate Confused(a: Packet, b: Packet) {
    ChildOf(a) == ChildOf(b) || Mimics(ChildOf(a), ChildOf(b)) || Mimics(ChildOf(b), ChildOf(a))
  }

  lemma ChildKeysCollide(a: Packet, b: Packet)
    ensures ChildKey(a) == ChildKey(b) <==> Confused(a, b)
  {
    var x, y := ChildOf(a), ChildOf(b);
    if !x.OfTask? && !y.OfTask? && ChildKey(a) == ChildKey(b) {
      assert ChildKey(a)[0] == ChildKey(b)[0];
      assert ChildKey(a)[1] == ChildKey(b)[1];
      match x
      case OfWorker(w) =>
        assert ("worker:" + w)[7..] == w && ("worker:" + y.id)[7..] == y.id;
      case OfOrder(n) =>
        assert ("order:" + ToDecimal(n))[6..] == ToDecimal(n);
        assert ("order:" + ToDecimal(y.order))[6..] == ToDecimal(y.order);
        DecimalRoundTrip(n);
        DecimalRoundTrip(y.order);
      case OfBroker =>
    }
  }

  /** Origin and child agree, or one origin swallows a separator. */
  predicate OriginsCollide(a: Packet, b: Packet) {
    || (a.originBrokerId == b.originBrokerId && Confused(a, b))
    || Swallows(a.originBrokerId, ChildKey(a), b.originBrokerId, ChildKey(b))
    || Swallows(b.originBrokerId, ChildKey(b), a.originBrokerId, ChildKey(a))
  }

  /** Round and the rest agree, or one round id swallows a separator. */
  predicate RoundsCollide(a: Packet, b: Packet) {
    var restA, restB := Join(a.originBrokerId, ChildKey(a)), Join(b.originBrokerId, ChildKey(b));
    || (a.parentRoundId == b.parentRoundId && OriginsCollide(a, b))
    || Swallows(a.parentRoundId, restA, b.parentRoundId, restB)
    || Swallows(b.parentRoundId, restB, a.parentRoundId, restA)
  }

  /** Two packets share a record exactly when round, origin and child agree, when a
      task id passes for the other child, or when a round or origin id swallows a
      separator of the other key. */
  lemma RecordKeysCollide(a: Packet, b: Packet)
    ensures RecordKey(a) == RecordKey(b) <==> RoundsCollide(a, b)
  {
    hide Swallows, ChildKey, Confused;
    var restA, restB := Join(a.originBrokerId, ChildKey(a)), Join(b.originBrokerId, ChildKey(b));
    assert RecordKey(a) == Join(a.parentRoundId, restA) && RecordKey(b) == Join(b.parentRoundId, restB);
    JoinsCollide(a.parentRoundId, restA, b.parentRoundId, restB);
    JoinsCollide(a.originBrokerId, ChildKey(a), b.originBrokerId, ChildKey(b));
    ChildKeysCollide(a, b);
  }

  /** With round and origin ids free of colons only a task id can be mistaken. */
  lemma ColonFreeKeys(a: Packet, b: Packet)
    requires ':' !in a.parentRoundId + a.originBrokerId && ':' !in b.parentRoundId + b.originBrokerId
    ensures RecordKey(a) == RecordKey(b)
      <==> a.parentRoundId == b.parentRoundId && a.originBrokerId == b.originBrokerId && Confused(a, b)
  {
    hide Swallows, ChildKey, Confused;
    assert forall c :: c in a.parentRoundId || c in a.originBrokerId ==> c in a.parentRoundId + a.originBrokerId;
    assert forall c :: c in b.parentRoundId || c in b.originBrokerId ==> c in b.parentRoundId + b.originBrokerId;
    var restA, restB := Join(a.originBrokerId, ChildKey(a)), Join(b.originBrokerId, ChildKey(b));
    RecordKeysCollide(a, b);
    NothingToSwallow(a.parentRoundId, restA, b.parentRoundId, restB);
    NothingToSwallow(b.parentRoundId, restB, a.parentRoundId, restA);
    NothingToSwallow(a.originBrokerId, ChildKey(a), b.originBrokerId, ChildKey(b));
    NothingToSwallow(b.originBrokerId, ChildKey(b), a.originBrokerId, ChildKey(a));
  }

  /** Three children that a task id can pass for. */
  lemma KeysCanCollide(p: Packet, worker: string, order: nat)
    requires order > 0
    ensures var a := p.(childTaskId := Some("worker:" + worker), childWorkerId := None);
      var b := p.(childTaskId := None, childWorkerId := Some(worker));
      RecordKey(a) == RecordKey(b) && a != b
    ensures var a := p.(childTaskId := Some("order:" + ToDecimal(order)));
      var b := p.(childTaskId := None, childWorkerId := None, parentRoundOrder := Some(order));
      RecordKey(a) == RecordKey(b) && a != b
    ensures var a := p.(childTaskId := Some("broker"));
      var b := p.(childTaskId := None, childWorkerId := None, parentRoundOrder := None);
      RecordKey(a) == RecordKey(b) && a != b
  {
  }

  /** Packets of two different rounds share a record: of two such packets the later
      one overwrites the earlier, and an earlier one is refused as stale. */
  lemma RoundsShareARecord(p: Packet, q: Packet, now: int)
    ensures var a := p.(parentRoundId := "r::x", originBrokerId := "b", childTaskId := Some("t"));
      var b := q.(parentRoundId := "r", originBrokerId := "x", childTaskId := Some("b::t"));
      var first := IngestPacket(map[], a, now);
      && RecordKey(a) == RecordKey(b) && first.Stored?
      && var second := IngestPacket(map[RecordKey(a) := first.record], b, now);
         if b.completedAt > a.completedAt then second.Stored? && second.record.packet == b
         else second == Rejected(StaleReplay)
  {
    var a := p.(parentRoundId := "r::x", originBrokerId := "b", childTaskId := Some("t"));
    var b := q.(parentRoundId := "r", originBrokerId := "x", childTaskId := Some("b::t"));
    assert RecordKey(a) == "r::x::b::t" && RecordKey(b) == "r::x::b::t";
  }

  /** Within one round and origin, keys agree exactly when the children are confused. */
  lemma KeysOfOneRound(a: Packet, b: Packet)
    requires a.parentRoundId == b.parentRoundId && a.originBrokerId == b.originBrokerId
    ensures RecordKey(a) == RecordKey(b) <==> Confused(a, b)
  {
    hide Confused;
    var prefix := a.parentRoundId + "::" + a.originBrokerId + "::";
    assert RecordKey(a)[|prefix|..] == ChildKey(a);
    assert RecordKey(b)[|prefix|..] == ChildKey(b);
    ChildKeysCollide(a, b);
  }

  type Records = map<string, Projection>

  function IngestPacket(records: Records, p: Packet, now: int): Reply {
    var key := RecordKey(p);
    if key in records && records[key].sourceDigest == p then
      Replayed(records[key].(replayCount := records[key].replayCount + 1, ack := DuplicateReplay, ackUpdatedAt := now))
    else if key in records && p.completedAt <= records[key].packet.completedAt then Rejected(StaleReplay)
    else
      Stored(Projection(p, p, p.emittedAt.GetOr(p.completedAt), now,
                        if key in records then records[key].replayCount else 0, Accepted, now))
  }

  /** The packet of an admissible request. */
  function Admitted(r: Request, env: Env): Option<Packet> {
    var p := Normalize(r);
    if p.Some? && Objection(p.value, r.terminalAck, env).None? then p else None
  }

  function Ingest(records: Records, r: Request, env: Env): Reply {
    var p := Normalize(r);
    if p.None? then Rejected(BadRequest)
    else
      var objection := Objection(p.value, r.terminalAck, env);
      if objection.Some? then Rejected(objection.value) else IngestPacket(records, p.value, env.now)
  }

  function After(records: Records, r: Request, env: Env): Records {
    var reply := Ingest(records, r, env);
    if reply.Rejected? then records else records[RecordKey(reply.record.packet) := reply.record]
  }

  function NormalizeRecord(record: Projection): Projection {
    record.(
      packet := record.packet.(parentRoundTotal := Positive(record.packet.parentRoundTotal),
                               parentRoundOrder := Positive(record.packet.parentRoundOrder)),
      ack := if record.ack == DuplicateReplay then DuplicateReplay else Accepted)
  }

  /** What every stored record satisfies. */
  predicate WellFormed(key: string, record: Projection) {
    key == RecordKey(record.packet)
    && record.sourceDigest == record.packet
    && record.packet.parentRoundTotal == Positive(record.packet.parentRoundTotal)
    && record.packet.parentRoundOrder == Positive(record.packet.parentRoundOrder)
  }

  ghost predicate IsRecorded(records: Records, record: Projection) {
    RecordKey(record.packet) in records && records[RecordKey(record.packet)] == record
  }

  /** All the records, in some order. */
  ghost predicate Lists(list: seq<Projection>, records: Records) {
    (forall x :: x in list ==> IsRecorded(records, x)) && (forall k :: k in records ==> records[k] in list)
  }

  class ProjectionStore {
    var records: Records

    ghost predicate Valid()
      reads this
    {
      forall k :: k in records ==> WellFormed(k, records[k])
    }

    constructor ()
      ensures Valid() && records == map[]
    {
      records := map[];
    }

    method IngestRequest(r: Request, env: Env) returns (reply: Reply)
      requires Valid()
      modifies this
      ensures Valid()
      ensures reply == Ingest(old(records), r, env) && records == After(old(records), r, env)
    {
      hide Normalize, Objection, RecordKey;
      var normalized := Normalize(r);
      if normalized.None? {
        return Rejected(BadRequest);
      }
      var p := normalized.value;
      var objection := Objection(p, r.terminalAck, env);
      if objection.Some? {
        return Rejected(objection.value);
      }
      var key := RecordKey(p);
      if key in records && records[key].sourceDigest == p {
        var replayed := records[key].(
          replayCount := records[key].replayCount + 1, ack := DuplicateReplay, ackUpdatedAt := env.now);
        records := records[key := replayed];
        return Replayed(replayed);
      }
      if key in records && p.completedAt <= records[key].packet.completedAt {
        return Rejected(StaleReplay);
      }
      var record := Projection(p, p, p.emittedAt.GetOr(p.completedAt), env.now,
                               if key in records then records[key].replayCount else 0, Accepted, env.now);
      records := records[key := record];
      reply := Stored(record);
    }

    method Snapshot() returns (list: seq<Projection>)
      requires Valid()
      ensures Lists(list, records)
    {
      list := [];
      var rest := records.Keys;
      while rest != {}
        invariant rest <= records.Keys
        invariant forall x :: x in list ==> IsRecorded(records, x)
        invariant forall k :: k in records ==> k in rest || records[k] in list
        decreases rest
      {
        var k :| k in rest;
        assert WellFormed(k, records[k]);
        list := list + [records[k]];
        rest := rest - {k};
      }
    }

    method Restore(list: seq<Projection>)
      modifies this
      ensures records == Restored(list)
    {
      records := map[];
      for i := 0 to |list|
        invariant records == Restored(list[..i])
      {
        assert list[..i + 1][..i] == list[..i];
        records := records[RecordKey(list[i].packet) := NormalizeRecord(list[i])];
      }
      assert list[..|list|] == list;
    }

    /** A store restored from its own snapshot is unchanged. */
    method SnapshotAndRestore()
      requires Valid()
      modifies this
      ensures records == old(records) && Valid()
    {
      var list := Snapshot();
      RestoreInvertsSnapshot(records, list);
      Restore(list);
    }
  }

  function Restored(list: seq<Projection>): Records {
    if list == [] then map[]
    else Restored(list[..|list| - 1])[RecordKey(list[|list| - 1].packet) := NormalizeRecord(list[|list| - 1])]
  }

  lemma WellFormedIsNormal(key: string, record: Projection)
    requires WellFormed(key, record)
    ensures NormalizeRecord(record) == record && RecordKey(record.packet) == key
  {
    hide RecordKey, Positive;
  }

  /** Every record of `part` is one of `records`. */
  ghost predicate IsPart(part: Records, records: Records) {
    forall k :: k in part ==> k in records && part[k] == records[k]
  }

  lemma RestoredNext(records: Records, part: Records, last: Projection)
    requires IsPart(part, records) && IsRecorded(records, last) && NormalizeRecord(last) == last
    ensures IsPart(part[RecordKey(last.packet) := NormalizeRecord(last)], records)
  {
    hide RecordKey, NormalizeRecord;
  }

  lemma {:induction false} RestoredHolds(records: Records, list: seq<Projection>)
    requires forall k :: k in records ==> WellFormed(k, records[k])
    requires forall x :: x in list ==> IsRecorded(records, x)
    ensures IsPart(Restored(list), records)
    ensures forall x :: x in list ==> RecordKey(x.packet) in Restored(list)
    decreases |list|
  {
    if list != [] {
      hide RecordKey, WellFormed, NormalizeRecord, IsPart;
      var front, last := list[..|list| - 1], list[|list| - 1];
      assert list == front + [last] && last in list;
      RestoredHolds(records, front);
      assert IsRecorded(records, last);
      WellFormedIsNormal(RecordKey(last.packet), last);
      RestoredNext(records, Restored(front), last);
    }
  }

  /** Restoring a snapshot, in whatever order it lists the records, preserves every record. */
  lemma RestoreInvertsSnapshot(records: Records, list: seq<Projection>)
    requires forall k :: k in records ==> WellFormed(k, records[k])
    requires Lists(list, records)
    ensures Restored(list) == records
  {
    hide RecordKey, NormalizeRecord, Restored;
    RestoredHolds(records, list);
    forall k | k in records ensures k in Restored(list) {
      assert records[k] in list && RecordKey(records[k].packet) == k;
    }
  }

  // ----- whole runs -----

  type Calls = seq<(Request, Env)>

  function Run(calls: Calls): Records {
    if calls == [] then map[]
    else After(Run(calls[..|calls| - 1]), calls[|calls| - 1].0, calls[|calls| - 1].1)
  }

  /** The admissible packets of one key, in the order they arrived. */
  function Arrivals(calls: Calls, key: string): seq<Packet> {
    if calls == [] then []
    else
      var p := Admitted(calls[|calls| - 1].0, calls[|calls| - 1].1);
      var before := Arrivals(calls[..|calls| - 1], key);
      if p.Some? && RecordKey(p.value) == key then before + [p.value] else before
  }

  /** The first arrival among the newest. */
  function Newest(arrivals: seq<Packet>): Packet
    requires arrivals != []
  {
    var last := arrivals[|arrivals| - 1];
    if |arrivals| == 1 then last
    else
      var best := Newest(arrivals[..|arrivals| - 1]);
      if last.completedAt > best.completedAt then last else best
  }

  /** Stored packets that were new at the time, in order: what gets enqueued. */
  function Enqueued(calls: Calls): seq<Packet> {
    if calls == [] then []
    else
      var before := calls[..|calls| - 1];
      var reply := Ingest(Run(before), calls[|calls| - 1].0, calls[|calls| - 1].1);
      Enqueued(before) + if reply.Stored? then [reply.record.packet] else []
  }

  /** How often a key was replayed. */
  function Replays(calls: Calls, key: string): nat {
    if calls == [] then 0
    else
      var before := calls[..|calls| - 1];
      var reply := Ingest(Run(before), calls[|calls| - 1].0, calls[|calls| - 1].1);
      Replays(before, key) + if reply.Replayed? && RecordKey(reply.record.packet) == key then 1 else 0
  }

  lemma NewestAppend(a: seq<Packet>, p: Packet)
    ensures Newest(a + [p]) == if a != [] && p.completedAt <= Newest(a).completedAt then Newest(a) else p
  {
    assert (a + [p])[..|a|] == a;
  }

  lemma {:induction false} NewestIsNewest(arrivals: seq<Packet>)
    requires arrivals != []
    ensures Newest(arrivals) in arrivals
    ensures forall p :: p in arrivals ==> p.completedAt <= Newest(arrivals).completedAt
    decreases |arrivals|
  {
    var front := arrivals[..|arrivals| - 1];
    assert arrivals == front + [arrivals[|arrivals| - 1]];
    if |arrivals| > 1 {
      NewestIsNewest(front);
    }
  }

  /** What the store knows about a key after some arrivals and replays. */
  ghost predicate Holds(records: Records, key: string, arrivals: seq<Packet>, replays: nat) {
    if arrivals == [] then key !in records && replays == 0
    else
      key in records && WellFormed(key, records[key])
      && records[key].packet == Newest(arrivals) && records[key].replayCount == replays
  }

  lemma IngestHolds(records: Records, p: Packet, now: int, arrivals: seq<Packet>, replays: nat)
    requires Holds(records, RecordKey(p), arrivals, replays)
    requires p.parentRoundTotal == Positive(p.parentRoundTotal) && p.parentRoundOrder == Positive(p.parentRoundOrder)
    ensures var reply := IngestPacket(records, p, now);
      var after := if reply.Rejected? then records else records[RecordKey(reply.record.packet) := reply.record];
      Holds(after, RecordKey(p), arrivals + [p], replays + if reply.Replayed? then 1 else 0)
      && (!reply.Rejected? ==> RecordKey(reply.record.packet) == RecordKey(p))
  {
    hide RecordKey, Newest;
    NewestAppend(arrivals, p);
  }

  /** The store holds, for every key, the newest admissible packet, and counts its replays. */
  lemma {:induction false} StoreHoldsNewest(calls: Calls, key: string)
    ensures Holds(Run(calls), key, Arrivals(calls, key), Replays(calls, key))
    decreases |calls|
  {
    hide RecordKey, Objection, Newest, WellFormed, IngestPacket, Normalize;
    if calls != [] {
      var before := calls[..|calls| - 1];
      var (r, env) := calls[|calls| - 1];
      StoreHoldsNewest(before, key);
      var p := Admitted(r, env);
      if p.Some? {
        StoreHoldsNewest(before, RecordKey(p.value));
        IngestHolds(Run(before), p.value, env.now, Arrivals(before, RecordKey(p.value)),
                    Replays(before, RecordKey(p.value)));
      }
    }
  }

  /** For packets with distinct completion times, the stored content depends only on
      which packets arrived: not on their order, not on duplicates, and not on when
      they were interleaved with other keys or with rejected requests. */
  lemma DeliveryOrderDoesNotMatter(a: Calls, b: Calls, key: string)
    requires forall p :: p in Arrivals(a, key) <==> p in Arrivals(b, key)
    requires forall p, q :: p in Arrivals(a, key) && q in Arrivals(a, key) && p.completedAt == q.completedAt ==> p == q
    ensures key in Run(a) <==> key in Run(b)
    ensures key in Run(a) ==> Run(a)[key].packet == Run(b)[key].packet
  {
    hide Run, Arrivals, Newest, WellFormed;
    StoreHoldsNewest(a, key);
    StoreHoldsNewest(b, key);
    SameNewest(Arrivals(a, key), Arrivals(b, key));
  }

  lemma SameNewest(x: seq<Packet>, y: seq<Packet>)
    requires forall p :: p in x <==> p in y
    requires forall p, q :: p in x && q in x && p.completedAt == q.completedAt ==> p == q
    ensures x == [] <==> y == []
    ensures x != [] ==> Newest(x) == Newest(y)
  {
    hide Newest;
    if y != [] {
      assert y[0] in x;
    }
    if x != [] {
      assert x[0] in y;
      NewestIsNewest(x);
      NewestIsNewest(y);
    }
  }

  lemma IngestedLater(records: Records, p: Packet, now: int)
    requires RecordKey(p) in records ==> WellFormed(RecordKey(p), records[RecordKey(p)])
    ensures var reply, key := IngestPacket(records, p, now), RecordKey(p);
      !reply.Rejected? ==>
        RecordKey(reply.record.packet) == key
        && (key in records ==> records[key].packet.completedAt <= reply.record.packet.completedAt)
  {
    hide RecordKey;
  }

  /** The stored completion time of a key never decreases. */
  lemma CompletionNeverDecreases(records: Records, r: Request, env: Env, key: string)
    requires key in records && forall k :: k in records ==> WellFormed(k, records[k])
    ensures key in After(records, r, env)
    ensures records[key].packet.completedAt <= After(records, r, env)[key].packet.completedAt
  {
    hide RecordKey, Objection, Normalize, IngestPacket, WellFormed;
    var p := Normalize(r);
    if p.Some? {
      IngestedLater(records, p.value, env.now);
    }
  }

  lemma {:induction false} EnqueuedAreOld(calls: Calls, i: nat)
    requires i < |Enqueued(calls)|
    ensures var key := RecordKey(Enqueued(calls)[i]);
      key in Run(calls) && Enqueued(calls)[i].completedAt <= Run(calls)[key].packet.completedAt
    decreases |calls|
  {
    hide RecordKey, Objection;
    var before := calls[..|calls| - 1];
    var (r, env) := calls[|calls| - 1];
    if i < |Enqueued(before)| {
      EnqueuedAreOld(before, i);
      var key := RecordKey(Enqueued(before)[i]);
      forall k | k in Run(before) ensures WellFormed(k, Run(before)[k]) {
        StoreHoldsNewest(before, k);
      }
      CompletionNeverDecreases(Run(before), r, env, key);
    }
  }

  /** Nothing that is stored or that the stored packet is newer than is stored again. */
  lemma StoredAgainIsNewer(records: Records, r: Request, env: Env, q: Packet)
    requires RecordKey(q) in records && WellFormed(RecordKey(q), records[RecordKey(q)])
    requires q.completedAt <= records[RecordKey(q)].packet.completedAt
    ensures var reply := Ingest(records, r, env); !(reply.Stored? && reply.record.packet == q)
  {
    hide RecordKey, Objection, Normalize;
  }

  /** Each distinct packet is stored as new, and therefore enqueued, at most once per run. */
  lemma {:induction false} EnqueuedAtMostOnce(calls: Calls, i: nat, j: nat)
    requires i < j < |Enqueued(calls)|
    ensures Enqueued(calls)[i] != Enqueued(calls)[j]
    decreases |calls|
  {
    hide RecordKey, Ingest, WellFormed, Run;
    var before := calls[..|calls| - 1];
    if j < |Enqueued(before)| {
      EnqueuedAtMostOnce(before, i, j);
    } else {
      EnqueuedAreOld(before, i);
      var q := Enqueued(before)[i];
      StoreHoldsNewest(before, RecordKey(q));
      StoredAgainIsNewer(Run(before), calls[|calls| - 1].0, calls[|calls| - 1].1, q);
    }
  }
}
