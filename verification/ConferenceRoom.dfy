/** Teleconference rooms: participant transitions whose events happen at most once,
    because each room remembers every event it emitted outside the replay buffer. */
module ConferenceRooms {
  import opened Basics
  import opened EventBuffer

  /** Event kinds; those of a participant are also its statuses. */
  datatype Kind = RoomCreated | RoomClosed | Invited | Joined | Speaking | Blocked | Left | Done

  predicate IsStatus(k: Kind) { k != RoomCreated && k != RoomClosed }

  predicate IsTerminal(s: Kind) { s == Blocked || s == Left || s == Done }

  predicate Allowed(from: Kind, to: Kind) {
    match from
    case Invited => to in {Joined, Blocked, Left}
    case Joined => to in {Speaking, Blocked, Left, Done}
    case Speaking => to in {Blocked, Left, Done}
    case _ => false
  }

  type NodeId = Id

  datatype Room = Room(parentTaskId: Id, closed: bool, participants: map<NodeId, Kind>)

  datatype RoomError =
    | ParentRequired | RoomNotFound | RoomIsClosed | NotAMember | ParticipantIsTerminal | BadTransition
    | MissingRecord

  /** `node` is absent for the events of the room itself. */
  datatype Notice = Notice(roomId: Id, kind: Kind, node: Option<NodeId>, reason: Option<string>)

  datatype Key = Key(kind: Kind, node: Option<NodeId>)

  function KeyOf(n: Notice): Key { Key(n.kind, n.node) }

  // ----- the textual key -----

  function KindText(k: Kind): string {
    match k
    case RoomCreated => "room_created"
    case RoomClosed => "room_closed"
    case Invited => "participant_invited"
    case Joined => "participant_joined"
    case Speaking => "participant_speaking"
    case Blocked => "participant_blocked"
    case Left => "participant_left"
    case Done => "participant_done"
  }

  /** The key under which the source files an event; `node` is empty for the
      events of the room itself. */
  function KeyText(kind: Kind, node: string): string {
    if node == "" then KindText(kind) else KindText(kind) + ":" + node
  }

  lemma KindTextHasNoColon(k: Kind)
    ensures ':' !in KindText(k)
  {
  }

  lemma KindTextInjective(a: Kind, b: Kind)
    requires KindText(a) == KindText(b)
    ensures a == b
  {
  }

  lemma SplitAtColon(a: string, x: string, b: string, y: string)
    requires ':' !in a && ':' !in b
    requires a + ":" + x == b + ":" + y
    ensures a == b && x == y
  {
    var s, t := a + ":" + x, b + ":" + y;
    assert s[|a|] == ':' && t[|b|] == ':';
    assert s[..|a|] == a && t[..|b|] == b;
    assert s[|a| + 1..] == x && t[|b| + 1..] == y;
  }

  lemma NoColonNoSplit(a: string, b: string, y: string)
    requires ':' !in a
    ensures a != b + ":" + y
  {
    assert (b + ":" + y)[|b|] == ':';
  }

  /** The text of a key determines the kind and the node, whatever the node is
      called: pairs of kind and node can stand for the keys. */
  lemma KeyTextInjective(kindA: Kind, nodeA: string, kindB: Kind, nodeB: string)
    requires KeyText(kindA, nodeA) == KeyText(kindB, nodeB)
    ensures kindA == kindB && nodeA == nodeB
  {
    hide KindText;
    KindTextHasNoColon(kindA);
    KindTextHasNoColon(kindB);
    NoColonNoSplit(KindText(kindA), KindText(kindB), nodeB);
    NoColonNoSplit(KindText(kindB), KindText(kindA), nodeA);
    if nodeA == "" {
      KindTextInjective(kindA, kindB);
    } else {
      SplitAtColon(KindText(kindA), nodeA, KindText(kindB), nodeB);
      KindTextInjective(kindA, kindB);
    }
  }

  // ----- what a room remembers -----

  type RoomIndex = map<Key, Event<Notice>>

  const CREATED_KEY := Key(RoomCreated, None)
  const CLOSED_KEY := Key(RoomClosed, None)

  /** The kinds a participant may have gone through to reach a status. */
  function Visited(s: Kind): set<Kind> {
    match s
    case Invited => {Invited}
    case Joined => {Invited, Joined}
    case Speaking => {Invited, Joined, Speaking}
    case _ => {Invited, Joined, Speaking, s}
  }

  /** The index of a room says exactly what has happened in it. */
  ghost predicate RoomInv(room: Room, index: RoomIndex) {
    && CREATED_KEY in index
    && (CLOSED_KEY in index <==> room.closed)
    && (forall k :: k in index ==>
          k == CREATED_KEY || k == CLOSED_KEY
          || (IsStatus(k.kind) && k.node.Some? && k.node.value in room.participants
              && k.kind in Visited(room.participants[k.node.value])))
    && (forall n :: n in room.participants ==>
          IsStatus(room.participants[n]) && Key(Invited, Some(n)) in index
          && Key(room.participants[n], Some(n)) in index)
  }

  ghost predicate Remembers(index: map<Id, RoomIndex>, e: Event<Notice>) {
    e.payload.roomId in index && KeyOf(e.payload) in index[e.payload.roomId]
    && index[e.payload.roomId][KeyOf(e.payload)] == e
  }

  ghost predicate IsLogged(log: seq<Event<Notice>>, r: Id, k: Key, e: Event<Notice>) {
    1 <= e.id <= |log| && log[e.id - 1] == e && e.payload.roomId == r && KeyOf(e.payload) == k
  }

  /** Log and indexes hold the same events, each under its own key. */
  ghost predicate SameEvents(index: map<Id, RoomIndex>, log: seq<Event<Notice>>) {
    (forall i :: 0 <= i < |log| ==> Remembers(index, log[i]))
    && (forall r, k :: r in index && k in index[r] ==> IsLogged(log, r, k, index[r][k]))
  }

  ghost predicate Consistent(rooms: map<Id, Room>, index: map<Id, RoomIndex>, log: seq<Event<Notice>>) {
    && Dense(log)
    && rooms.Keys == index.Keys
    && (forall r :: r in rooms ==> RoomInv(rooms[r], index[r]))
    && SameEvents(index, log)
    && TotalSize(index) == |log|
  }

  // ----- sizes -----

  ghost function TotalSize(index: map<Id, RoomIndex>): nat
    decreases |index|
  {
    if index == map[] then 0
    else
      var r :| r in index;
      |index[r]| + TotalSize(index - {r})
  }

  lemma RemoveTwo(index: map<Id, RoomIndex>, x: Id, r: Id)
    requires x in index && r in index
    ensures index - {x} - {r} == index - {r} - {x}
    ensures |index - {x}| < |index| && |index - {r}| < |index|
  {
    assert (index - {x}).Keys == index.Keys - {x} && (index - {r}).Keys == index.Keys - {r};
  }

  lemma {:induction false} TotalSizeWithout(index: map<Id, RoomIndex>, r: Id)
    requires r in index
    ensures TotalSize(index) == |index[r]| + TotalSize(index - {r})
    decreases |index|
  {
    var x :| x in index && TotalSize(index) == |index[x]| + TotalSize(index - {x});
    hide TotalSize;
    RemoveTwo(index, x, r);
    if x != r {
      TotalSizeWithout(index - {x}, r);
      TotalSizeWithout(index - {r}, x);
    }
  }

  lemma TotalSizeUpdate(index: map<Id, RoomIndex>, r: Id, room: RoomIndex)
    ensures TotalSize(index[r := room]) == TotalSize(index - {r}) + |room|
    ensures TotalSize(index - {r}) + (if r in index then |index[r]| else 0) == TotalSize(index)
  {
    hide TotalSize;
    UpdateThenRemove(index, r, room);
    TotalSizeWithout(index[r := room], r);
    if r in index {
      TotalSizeWithout(index, r);
    } else {
      assert index - {r} == index;
    }
  }

  function PossibleKeys(participants: map<NodeId, Kind>): set<Key> {
    set n, k | n in participants && k in Visited(participants[n]) :: Key(k, Some(n))
  }

  function OwnKeys(n: NodeId, s: Kind): set<Key> {
    {Key(Invited, Some(n)), Key(Joined, Some(n)), Key(Speaking, Some(n)), Key(s, Some(n))}
  }

  lemma KeysOfOneMore(participants: map<NodeId, Kind>, n: NodeId)
    requires n in participants
    ensures PossibleKeys(participants) <= PossibleKeys(participants - {n}) + OwnKeys(n, participants[n])
  {
    forall k | k in PossibleKeys(participants) && k.node != Some(n) ensures k in PossibleKeys(participants - {n}) {
      hide OwnKeys;
      assert k.node.value in participants - {n};
    }
  }

  lemma {:induction false} FewKeys(participants: map<NodeId, Kind>)
    ensures |PossibleKeys(participants)| <= 4 * |participants|
    decreases |participants|
  {
    if participants == map[] {
      assert PossibleKeys(participants) == {};
    } else {
      var n :| n in participants;
      var rest := participants - {n};
      assert rest.Keys == participants.Keys - {n};
      FewKeys(rest);
      KeysOfOneMore(participants, n);
      assert |OwnKeys(n, participants[n])| <= 4;
      hide OwnKeys, PossibleKeys;
      SubsetSize(PossibleKeys(participants), PossibleKeys(rest) + OwnKeys(n, participants[n]));
    }
  }

  // ----- consequences -----

  /** No room ever emits two events of one kind for one node, eviction or not. */
  lemma EventsAtMostOnce(rooms: map<Id, Room>, index: map<Id, RoomIndex>, log: seq<Event<Notice>>, i: nat, j: nat)
    requires Consistent(rooms, index, log) && i < |log| && j < |log|
    requires log[i].payload.roomId == log[j].payload.roomId && KeyOf(log[i].payload) == KeyOf(log[j].payload)
    ensures i == j
  {
    hide TotalSize, RoomInv;
    assert Remembers(index, log[i]) && Remembers(index, log[j]);
  }

  /** The latest id is the number of remembered events, over all rooms. */
  lemma LatestIdIsTotalSize(rooms: map<Id, Room>, index: map<Id, RoomIndex>, log: seq<Event<Notice>>)
    requires Consistent(rooms, index, log) && log != []
    ensures log[|log| - 1].id == TotalSize(index)
  {
  }

  /** A room emits at most two events of its own and four per participant. */
  lemma RoomEventBound(room: Room, index: RoomIndex)
    requires RoomInv(room, index)
    ensures |index| <= 2 + 4 * |room.participants|
  {
    var all := {CREATED_KEY, CLOSED_KEY} + PossibleKeys(room.participants);
    forall k | k in index ensures k in all {
      if k != CREATED_KEY && k != CLOSED_KEY {
        assert k == Key(k.kind, k.node);
      }
    }
    SubsetSize(index.Keys, all);
    FewKeys(room.participants);
    assert |index| == |index.Keys|;
  }

  // ----- emission -----

  lemma EmitKeepsSame(index: map<Id, RoomIndex>, log: seq<Event<Notice>>, n: Notice)
    requires SameEvents(index, log)
    requires n.roomId in index && KeyOf(n) !in index[n.roomId]
    ensures var e := Event(|log| + 1, n);
      SameEvents(index[n.roomId := index[n.roomId][KeyOf(n) := e]], log + [e])
  {
    var e := Event(|log| + 1, n);
    var room := index[n.roomId][KeyOf(n) := e];
    var index' := index[n.roomId := room];
    forall i | 0 <= i < |log + [e]| ensures Remembers(index', (log + [e])[i]) {
      if i < |log| {
        assert Remembers(index, log[i]);
      }
    }
    forall r, k | r in index' && k in index'[r] ensures IsLogged(log + [e], r, k, index'[r][k]) {
      if r != n.roomId || k != KeyOf(n) {
        assert r in index && k in index[r] && index'[r][k] == index[r][k];
        assert IsLogged(log, r, k, index[r][k]);
      }
    }
  }

  /** Emitting an event under a key its room has not used keeps log and indexes
      in step. */
  lemma EmitKeepsEvents(index: map<Id, RoomIndex>, log: seq<Event<Notice>>, n: Notice)
    requires Dense(log) && SameEvents(index, log) && TotalSize(index) == |log|
    requires n.roomId in index && KeyOf(n) !in index[n.roomId]
    ensures var e := Event(|log| + 1, n);
      var index' := index[n.roomId := index[n.roomId][KeyOf(n) := e]];
      Dense(log + [e]) && SameEvents(index', log + [e]) && TotalSize(index') == |log + [e]|
  {
    hide TotalSize, SameEvents;
    var e := Event(|log| + 1, n);
    EmitKeepsSame(index, log, n);
    TotalSizeUpdate(index, n.roomId, index[n.roomId][KeyOf(n) := e]);
    assert |index[n.roomId][KeyOf(n) := e]| == |index[n.roomId]| + 1;
  }

  /** One step of a room: its record, its index and the log move together. */
  lemma EmitKeepsConsistent(rooms: map<Id, Room>, index: map<Id, RoomIndex>, log: seq<Event<Notice>>, room: Room,
                            n: Notice)
    requires Consistent(rooms, index, log) && n.roomId in rooms
    requires KeyOf(n) !in index[n.roomId]
    requires RoomInv(room, index[n.roomId][KeyOf(n) := Event(|log| + 1, n)])
    ensures var e := Event(|log| + 1, n);
      Consistent(rooms[n.roomId := room], index[n.roomId := index[n.roomId][KeyOf(n) := e]], log + [e])
  {
    hide RoomInv, SameEvents, TotalSize, Dense;
    EmitKeepsEvents(index, log, n);
  }

  lemma CreateKeepsConsistent(rooms: map<Id, Room>, index: map<Id, RoomIndex>, log: seq<Event<Notice>>, room: Room,
                              n: Notice)
    requires Consistent(rooms, index, log) && n.roomId !in rooms
    requires RoomInv(room, map[KeyOf(n) := Event(|log| + 1, n)])
    ensures var e := Event(|log| + 1, n);
      Consistent(rooms[n.roomId := room], index[n.roomId := map[KeyOf(n) := e]], log + [e])
  {
    hide RoomInv, SameEvents, TotalSize, Dense;
    NewRoomKeepsEvents(index, log, n.roomId);
    EmitKeepsEvents(index[n.roomId := map[]], log, n);
    var nothing: RoomIndex := map[];
    assert nothing[KeyOf(n) := Event(|log| + 1, n)] == map[KeyOf(n) := Event(|log| + 1, n)];
    assert index[n.roomId := nothing][n.roomId := map[KeyOf(n) := Event(|log| + 1, n)]]
        == index[n.roomId := map[KeyOf(n) := Event(|log| + 1, n)]];
  }

  /** What every room's index tells; in particular why the two "missing record"
      errors never occur. */
  lemma KnownKeys(rooms: map<Id, Room>, index: map<Id, RoomIndex>, log: seq<Event<Notice>>, r: Id)
    requires Consistent(rooms, index, log) && r in rooms
    ensures r in index && RoomInv(rooms[r], index[r])
    ensures CLOSED_KEY in index[r] <==> rooms[r].closed
    ensures forall n :: n in rooms[r].participants ==>
      Key(Invited, Some(n)) in index[r] && Key(rooms[r].participants[n], Some(n)) in index[r]
  {
    hide SameEvents, TotalSize, Dense;
  }

  lemma NewRoomKeepsEvents(index: map<Id, RoomIndex>, log: seq<Event<Notice>>, id: Id)
    requires SameEvents(index, log) && id !in index
    ensures SameEvents(index[id := map[]], log) && TotalSize(index[id := map[]]) == TotalSize(index)
  {
    hide TotalSize;
    var nothing: RoomIndex := map[];
    TotalSizeUpdate(index, id, nothing);
    assert |nothing| == 0;
    forall i | 0 <= i < |log| ensures Remembers(index[id := nothing], log[i]) {
      assert Remembers(index, log[i]);
    }
    var index' := index[id := nothing];
    forall r, k | r in index' && k in index'[r] ensures IsLogged(log, r, k, index'[r][k]) {
      assert r in index && k in index[r];
    }
  }

  lemma CreatedInv(parentTaskId: Id, e: Event<Notice>)
    ensures RoomInv(Room(parentTaskId, false, map[]), map[CREATED_KEY := e])
  {
  }

  lemma ClosedInv(room: Room, index: RoomIndex, e: Event<Notice>)
    requires RoomInv(room, index)
    ensures !room.closed ==> CLOSED_KEY !in index
    ensures RoomInv(room.(closed := true), index[CLOSED_KEY := e])
  {
  }

  lemma InvitedInv(room: Room, index: RoomIndex, node: NodeId, e: Event<Notice>)
    requires RoomInv(room, index) && node !in room.participants
    ensures Key(Invited, Some(node)) !in index
    ensures RoomInv(room.(participants := room.participants[node := Invited]), index[Key(Invited, Some(node)) := e])
  {
  }

  lemma MovesForward(s: Kind, target: Kind)
    requires IsStatus(s) && Allowed(s, target)
    ensures IsStatus(target) && Visited(s) <= Visited(target)
    ensures target in Visited(target) && target !in Visited(s)
  {
  }

  lemma MovedInv(room: Room, index: RoomIndex, node: NodeId, target: Kind, e: Event<Notice>)
    requires RoomInv(room, index) && node in room.participants && Allowed(room.participants[node], target)
    ensures Key(target, Some(node)) !in index
    ensures RoomInv(room.(participants := room.participants[node := target]), index[Key(target, Some(node)) := e])
  {
    hide Visited, Allowed;
    MovesForward(room.participants[node], target);
  }

  /** Every event remembered before is remembered unchanged. */
  ghost predicate StillRemembers(before: map<Id, RoomIndex>, after: map<Id, RoomIndex>, r: Id) {
    r in before && r in after
    && forall k :: k in before[r] ==> k in after[r] && after[r][k] == before[r][k]
  }

  lemma RemembersItself(index: map<Id, RoomIndex>, r: Id)
    requires r in index
    ensures StillRemembers(index, index, r)
  {
  }

  /** The first invitation of a node. */
  ghost predicate IsInvitation(rooms: map<Id, Room>, index: map<Id, RoomIndex>, r: Id, node: NodeId, e: Event<Notice>) {
    r in rooms && node in rooms[r].participants
    && r in index && Key(Invited, Some(node)) in index[r] && e == index[r][Key(Invited, Some(node))]
  }

  lemma InvitationsPersist(rooms: map<Id, Room>, index: map<Id, RoomIndex>, rooms': map<Id, Room>,
                           index': map<Id, RoomIndex>, first: map<Id, RoomIndex>, r: Id, nodes: seq<NodeId>,
                           out: seq<Event<Notice>>)
    requires |out| <= |nodes| && r in rooms && r in rooms'
    requires rooms[r].participants.Keys <= rooms'[r].participants.Keys
    requires StillRemembers(first, index, r) && StillRemembers(index, index', r)
    requires forall j :: 0 <= j < |out| ==> IsInvitation(rooms, index, r, nodes[j], out[j])
    ensures StillRemembers(first, index', r)
    ensures forall j :: 0 <= j < |out| ==> IsInvitation(rooms', index', r, nodes[j], out[j])
  {
  }

  // ----- the manager -----

  class ConferenceRoomManager {
    var rooms: map<Id, Room>
    var roomEventIndex: map<Id, RoomIndex>
    const buffer: CursorEventBuffer<Notice>

    ghost function Log(): seq<Event<Notice>>
      reads buffer
    {
      buffer.pushed
    }

    ghost predicate Valid()
      reads this, buffer
    {
      buffer.Valid() && buffer.nextId == |Log()| && Consistent(rooms, roomEventIndex, Log())
    }

    constructor (maxEvents: nat)
      ensures Valid() && rooms == map[] && Log() == [] && fresh(buffer)
    {
      rooms, roomEventIndex := map[], map[];
      buffer := new CursorEventBuffer<Notice>(if maxEvents > 0 then maxEvents else 500);
    }

    /** In every state of the manager the latest id is the number of remembered
        events over all rooms, no event was ever emitted twice, and no room has
        emitted more than its bound, whatever the buffer has evicted. */
    lemma EveryEventIsRemembered()
      requires Valid()
      ensures buffer.nextId == TotalSize(roomEventIndex)
      ensures Log() != [] ==> Log()[|Log()| - 1].id == buffer.nextId
      ensures forall i, j ::
        0 <= i < j < |Log()| && Log()[i].payload.roomId == Log()[j].payload.roomId
        ==> KeyOf(Log()[i].payload) != KeyOf(Log()[j].payload)
      ensures forall r :: r in rooms ==> r in roomEventIndex && |roomEventIndex[r]| <= 2 + 4 * |rooms[r].participants|
    {
      if Log() != [] {
        LatestIdIsTotalSize(rooms, roomEventIndex, Log());
      }
      forall i, j | 0 <= i < j < |Log()| && Log()[i].payload.roomId == Log()[j].payload.roomId
        ensures KeyOf(Log()[i].payload) != KeyOf(Log()[j].payload)
      {
        if KeyOf(Log()[i].payload) == KeyOf(Log()[j].payload) {
          EventsAtMostOnce(rooms, roomEventIndex, Log(), i, j);
        }
      }
      forall r | r in rooms ensures r in roomEventIndex && |roomEventIndex[r]| <= 2 + 4 * |rooms[r].participants| {
        RoomEventBound(rooms[r], roomEventIndex[r]);
      }
    }

    /** Allocates, indexes and pushes one event. */
    method Emit(n: Notice) returns (event: Event<Notice>)
      requires buffer.Valid() && buffer.nextId == |Log()| && n.roomId in roomEventIndex
      modifies this`roomEventIndex, buffer
      ensures buffer.Valid() && buffer.nextId == |Log()|
      ensures event == Event(|old(Log())| + 1, n) && Log() == old(Log()) + [event]
      ensures roomEventIndex == old(roomEventIndex)[n.roomId := old(roomEventIndex)[n.roomId][KeyOf(n) := event]]
    {
      var id := buffer.AllocateId();
      event := Event(id, n);
      roomEventIndex := roomEventIndex[n.roomId := roomEventIndex[n.roomId][KeyOf(n) := event]];
      buffer.Push(event);
    }

    /** A parent task id is required; zero stands for the empty text. */
    method CreateRoom(parentTaskId: Id, newId: Id) returns (r: Result<Id, RoomError>)
      requires Valid() && newId !in rooms
      modifies this, buffer
      ensures Valid()
      ensures r == if parentTaskId == 0 then Err(ParentRequired) else Ok(newId)
      ensures rooms == if r.Ok? then old(rooms)[newId := Room(parentTaskId, false, map[])] else old(rooms)
      ensures Log() == if r.Ok? then old(Log()) + [Event(|old(Log())| + 1, Notice(newId, RoomCreated, None, None))]
        else old(Log())
    {
      hide RoomInv, Consistent, Dense;
      if parentTaskId == 0 {
        return Err(ParentRequired);
      }
      ghost var n := Notice(newId, RoomCreated, None, None);
      CreatedInv(parentTaskId, Event(|Log()| + 1, n));
      CreateKeepsConsistent(rooms, roomEventIndex, Log(), Room(parentTaskId, false, map[]), n);
      rooms := rooms[newId := Room(parentTaskId, false, map[])];
      roomEventIndex := roomEventIndex[newId := map[]];
      var e := Emit(Notice(newId, RoomCreated, None, None));
      ghost var nothing: RoomIndex := map[];
      assert nothing[CREATED_KEY := e] == map[CREATED_KEY := e];
      assert roomEventIndex == old(roomEventIndex)[newId := map[CREATED_KEY := e]];
      r := Ok(newId);
    }

    /** Inviting is idempotent per node: a known node yields its first invitation. */
    method Invite(roomId: Id, nodeIds: seq<NodeId>) returns (r: Result<seq<Event<Notice>>, RoomError>)
      requires Valid()
      modifies this, buffer
      ensures Valid()
      ensures r.Err? <==> roomId !in old(rooms) || old(rooms)[roomId].closed
      ensures r.Err? ==> r.error == RoomNotFound || r.error == RoomIsClosed
      ensures r.Err? ==> rooms == old(rooms) && Log() == old(Log())
      ensures r.Ok? ==> |r.value| == |nodeIds| && StillRemembers(old(roomEventIndex), roomEventIndex, roomId)
      ensures r.Ok? ==>
        forall i :: 0 <= i < |nodeIds| ==> IsInvitation(rooms, roomEventIndex, roomId, nodeIds[i], r.value[i])
    {
      hide Consistent, Dense, StillRemembers, IsInvitation, Suffix;
      if roomId !in rooms {
        return Err(RoomNotFound);
      }
      if rooms[roomId].closed {
        return Err(RoomIsClosed);
      }
      KnownKeys(rooms, roomEventIndex, Log(), roomId);
      RemembersItself(roomEventIndex, roomId);
      var out: seq<Event<Notice>> := [];
      for i := 0 to |nodeIds|
        invariant Valid() && roomId in rooms && |out| == i
        invariant StillRemembers(old(roomEventIndex), roomEventIndex, roomId)
        invariant forall j :: 0 <= j < i ==> IsInvitation(rooms, roomEventIndex, roomId, nodeIds[j], out[j])
      {
        ghost var rooms0, index0 := rooms, roomEventIndex;
        var e := InviteOne(roomId, nodeIds[i]);
        InvitationsPersist(rooms0, index0, rooms, roomEventIndex, old(roomEventIndex), roomId, nodeIds, out);
        out := out + [e];
      }
      r := Ok(out);
    }

    method InviteOne(roomId: Id, node: NodeId) returns (event: Event<Notice>)
      requires Valid() && roomId in rooms
      modifies this, buffer
      ensures Valid() && rooms.Keys == old(rooms).Keys
      ensures rooms[roomId].participants.Keys == old(rooms)[roomId].participants.Keys + {node}
      ensures IsInvitation(rooms, roomEventIndex, roomId, node, event)
      ensures StillRemembers(old(roomEventIndex), roomEventIndex, roomId)
      ensures node in old(rooms)[roomId].participants ==>
        Log() == old(Log()) && rooms == old(rooms) && roomEventIndex == old(roomEventIndex)
    {
      hide RoomInv, Consistent, Dense;
      var room := rooms[roomId];
      KnownKeys(rooms, roomEventIndex, Log(), roomId);
      if node in room.participants {
        if Key(Invited, Some(node)) in roomEventIndex[roomId] {
          return roomEventIndex[roomId][Key(Invited, Some(node))];
        }
        assert false;
      }
      var n := Notice(roomId, Invited, Some(node), None);
      InvitedInv(room, roomEventIndex[roomId], node, Event(|Log()| + 1, n));
      EmitKeepsConsistent(rooms, roomEventIndex, Log(),
                          room.(participants := room.participants[node := Invited]), n);
      rooms := rooms[roomId := room.(participants := room.participants[node := Invited])];
      event := Emit(n);
    }

    /** join, speak, block, leave and done. */
    method Transition(roomId: Id, node: NodeId, target: Kind, reason: Option<string>)
      returns (r: Result<Event<Notice>, RoomError>)
      requires Valid() && IsStatus(target) && target != Invited
      modifies this, buffer
      ensures Valid()
      ensures r != Err(MissingRecord)
      ensures r.Err? ==> rooms == old(rooms) && Log() == old(Log())
      ensures r.Ok? ==> roomId in old(rooms) && !old(rooms)[roomId].closed && node in old(rooms)[roomId].participants
      ensures r.Ok? && old(rooms)[roomId].participants[node] == target ==>
        (Log() == old(Log()) && rooms == old(rooms)
         && Key(target, Some(node)) in old(roomEventIndex)[roomId]
         && r.value == old(roomEventIndex)[roomId][Key(target, Some(node))])
      ensures r.Ok? && old(rooms)[roomId].participants[node] != target ==>
        (Allowed(old(rooms)[roomId].participants[node], target)
         && rooms == old(rooms)[roomId := old(rooms)[roomId].(
              participants := old(rooms)[roomId].participants[node := target])]
         && r.value == Event(|old(Log())| + 1, Notice(roomId, target, Some(node), reason))
         && Log() == old(Log()) + [r.value])
      ensures roomId in old(rooms) && !old(rooms)[roomId].closed && node in old(rooms)[roomId].participants ==>
        (r.Ok? <==> old(rooms)[roomId].participants[node] == target
                    || Allowed(old(rooms)[roomId].participants[node], target))
    {
      hide RoomInv, Consistent, Dense;
      if roomId !in rooms {
        return Err(RoomNotFound);
      }
      var room := rooms[roomId];
      if room.closed {
        return Err(RoomIsClosed);
      }
      if node !in room.participants {
        return Err(NotAMember);
      }
      KnownKeys(rooms, roomEventIndex, Log(), roomId);
      var status := room.participants[node];
      if status == target {
        if Key(target, Some(node)) in roomEventIndex[roomId] {
          return Ok(roomEventIndex[roomId][Key(target, Some(node))]);
        }
        return Err(MissingRecord);
      }
      if IsTerminal(status) {
        return Err(ParticipantIsTerminal);
      }
      if !Allowed(status, target) {
        return Err(BadTransition);
      }
      var n := Notice(roomId, target, Some(node), reason);
      MovedInv(room, roomEventIndex[roomId], node, target, Event(|Log()| + 1, n));
      EmitKeepsConsistent(rooms, roomEventIndex, Log(),
                          room.(participants := room.participants[node := target]), n);
      rooms := rooms[roomId := room.(participants := room.participants[node := target])];
      var e := Emit(n);
      r := Ok(e);
    }

    method CloseRoom(roomId: Id) returns (r: Result<Event<Notice>, RoomError>)
      requires Valid()
      modifies this, buffer
      ensures Valid()
      ensures r.Err? <==> roomId !in old(rooms)
      ensures r.Err? ==> r.error == RoomNotFound && rooms == old(rooms) && Log() == old(Log())
      ensures r.Ok? && old(rooms)[roomId].closed ==>
        (CLOSED_KEY in old(roomEventIndex)[roomId] && r.value == old(roomEventIndex)[roomId][CLOSED_KEY]
         && rooms == old(rooms) && Log() == old(Log()))
      ensures r.Ok? && !old(rooms)[roomId].closed ==>
        (rooms == old(rooms)[roomId := old(rooms)[roomId].(closed := true)]
         && r.value == Event(|old(Log())| + 1, Notice(roomId, RoomClosed, None, None))
         && Log() == old(Log()) + [r.value])
    {
      hide RoomInv, Consistent, Dense;
      if roomId !in rooms {
        return Err(RoomNotFound);
      }
      var room := rooms[roomId];
      KnownKeys(rooms, roomEventIndex, Log(), roomId);
      if room.closed && CLOSED_KEY in roomEventIndex[roomId] {
        return Ok(roomEventIndex[roomId][CLOSED_KEY]);
      }
      var n := Notice(roomId, RoomClosed, None, None);
      ClosedInv(room, roomEventIndex[roomId], Event(|Log()| + 1, n));
      EmitKeepsConsistent(rooms, roomEventIndex, Log(), room.(closed := true), n);
      rooms := rooms[roomId := room.(closed := true)];
      var e := Emit(n);
      r := Ok(e);
    }
  }
}
