/** The exchanges and messages of the broker: their live rows, the rows that wait
    for the next save, and the durable copy. */
module ExchangeStores {
  import opened Basics
  import opened BrokerTypes
  import opened Lineage
  import opened ExchangeThreads
  import ExchangeSync
  import Retention

  datatype Rows = Rows(exchanges: map<Id, Exchange>, messages: map<Id, Message>)

  datatype Store = Store(live: Rows, pending: Rows, durable: Rows)

  const NO_ROWS := Rows(map[], map[])

  // ----- rows -----

  /** A stored row is live and pending at once. */
  function WithExchange(s: Store, x: Id, e: Exchange): Store {
    s.(live := s.live.(exchanges := s.live.exchanges[x := e]),
       pending := s.pending.(exchanges := s.pending.exchanges[x := e]))
  }

  function WithMessage(s: Store, id: Id, m: Message): Store {
    s.(live := s.live.(messages := s.live.messages[id := m]),
       pending := s.pending.(messages := s.pending.messages[id := m]))
  }

  /** A row changed in place and not stored again. */
  function LiveOnly(s: Store, x: Id, e: Exchange): Store {
    s.(live := s.live.(exchanges := s.live.exchanges[x := e]))
  }

  // ----- steps -----

  function RootMessage(x: Id, target: Party, now: int): Message {
    Message(x, true, None, None, target.id, None, now)
  }

  function NewExchange(rootId: Id, requester: Party, target: Party, now: int): Exchange {
    Exchange(requester, target, target.id, None, ExchangeQueued, None, None, rootId, rootId, 1, Some(now))
  }

  function Started(s: Store, x: Id, rootId: Id, requester: Party, target: Party, now: int): Store {
    WithExchange(WithMessage(s, rootId, RootMessage(x, target, now)), x, NewExchange(rootId, requester, target, now))
  }

  predicate IsKnown(workers: map<Id, Worker>, worker: Option<Id>) {
    worker.Some? ==> worker.value in workers
  }

  /** Why a message is refused before anything is stored. */
  function Refusal(rows: Rows, workers: map<Id, Worker>, x: Id, r: MessageRequest): Option<BrokerError> {
    if x !in rows.exchanges then Some(NotFound)
    else if r.actor.None? || !r.hasText then Some(BadRequest)
    else if !ActorMay(rows.exchanges[x], r, r.actor.value) then Some(PolicyDenied)
    else if !IsKnown(workers, r.targetNodeId) || !IsKnown(workers, r.assignedWorkerId) then Some(NotFound)
    else if r.parentMessageId.Some? && r.parentMessageId.value !in MessagesOf(rows.messages, x) then Some(NotFound)
    else None
  }

  /** What a message that was not refused makes of its exchange. */
  function Arranged(s: Store, x: Id, r: MessageRequest, id: Id, tasks: map<Id, Task>, workers: map<Id, Worker>,
                    newTask: Id, metadataHolds: bool, now: int): Arrangement
    requires x in s.live.exchanges && r.actor.Some?
  {
    var m := NewMessage(s.live.exchanges[x], x, r, now);
    Decide(Noted(s.live.exchanges[x], id, m, workers, now), m, r.actor.value, tasks, workers, newTask, metadataHolds,
           now)
  }

  /** The message is stored first. If its task cannot be arranged, the exchange has
      changed in place and is not stored. */
  function Added(s: Store, x: Id, r: MessageRequest, id: Id, tasks: map<Id, Task>, workers: map<Id, Worker>,
                 newTask: Id, metadataHolds: bool, now: int): Store
  {
    if Refusal(s.live, workers, x, r).Some? then s
    else
      var done := Arranged(s, x, r, id, tasks, workers, newTask, metadataHolds, now);
      var s1 := WithMessage(s, id, NewMessage(s.live.exchanges[x], x, r, now));
      if done.refusal.Some? then LiveOnly(s1, x, done.exchange) else WithExchange(s1, x, done.exchange)
  }

  /** The exchange of a changed task follows it. */
  function FollowedTask(s: Store, id: Id, task: Task, nextStatus: Option<ExchangeStatus>, now: int): Store {
    if task.exchangeId.Some? && task.exchangeId.value in s.live.exchanges then
      var x := task.exchangeId.value;
      WithExchange(s, x, ExchangeSync.Synced(s.live.exchanges, id, task, nextStatus, now)[x])
    else s
  }

  /** Pending rows are upserted. */
  function SavedHot(s: Store): Store {
    s.(durable := Rows(s.durable.exchanges + s.pending.exchanges, s.durable.messages + s.pending.messages),
       pending := NO_ROWS)
  }

  /** A full snapshot prunes the live rows and replaces the durable ones. */
  ghost function SavedFull(s: Store, others: Tables, p: Retention.Policy, now: int): Store {
    var r := Retention.Retain(others.(exchanges := s.live.exchanges, messages := s.live.messages), p, now);
    Store(Rows(r.exchanges, r.messages), NO_ROWS, Rows(r.exchanges, r.messages))
  }

  // ----- what the durable copy can recover -----

  /** Messages can always be recovered. An exchange can be recovered exactly if it
      is not in `unsaved`; otherwise its recoverable row counts too few messages. */
  ghost predicate Recoverable(s: Store, unsaved: set<Id>) {
    var rows := s.durable.exchanges + s.pending.exchanges;
    && s.durable.messages + s.pending.messages == s.live.messages
    && rows.Keys == s.live.exchanges.Keys && unsaved <= rows.Keys
    && (forall x :: x in rows && x !in unsaved ==> rows[x] == s.live.exchanges[x])
    && (forall x :: x in unsaved ==> rows[x].messageCount < s.live.exchanges[x].messageCount)
  }

  ghost predicate Consistent(s: Store, unsaved: set<Id>) {
    Sound(s.live.exchanges, s.live.messages) && Recoverable(s, unsaved)
  }

  /** Durable plus pending exchange rows equal the live ones exactly when no
      exchange is unsaved. */
  lemma RecoveredExactly(s: Store, unsaved: set<Id>)
    requires Recoverable(s, unsaved)
    ensures s.durable.exchanges + s.pending.exchanges == s.live.exchanges <==> unsaved == {}
  {
    if unsaved != {} {
      var x :| x in unsaved;
      assert (s.durable.exchanges + s.pending.exchanges)[x] != s.live.exchanges[x];
    }
  }

  lemma MessageStays(s: Store, unsaved: set<Id>, id: Id, m: Message)
    requires Recoverable(s, unsaved)
    ensures Recoverable(WithMessage(s, id, m), unsaved)
  {
    PlusUpdate(s.durable.messages, s.pending.messages, id, m);
  }

  lemma ExchangeStays(s: Store, unsaved: set<Id>, x: Id, e: Exchange)
    requires Recoverable(s, unsaved)
    ensures Recoverable(WithExchange(s, x, e), unsaved - {x})
  {
    PlusUpdate(s.durable.exchanges, s.pending.exchanges, x, e);
  }

  lemma ExchangeIsLost(s: Store, unsaved: set<Id>, x: Id, e: Exchange)
    requires Recoverable(s, unsaved) && x in s.live.exchanges && e.messageCount > s.live.exchanges[x].messageCount
    ensures Recoverable(LiveOnly(s, x, e), unsaved + {x})
  {
  }

  // ----- every step keeps both -----

  lemma StartKeeps(s: Store, unsaved: set<Id>, x: Id, rootId: Id, requester: Party, target: Party, now: int)
    requires Consistent(s, unsaved) && x !in s.live.exchanges && rootId !in s.live.messages
    ensures Consistent(Started(s, x, rootId, requester, target, now), unsaved)
  {
    hide Sound, Recoverable;
    var root, e := RootMessage(x, target, now), NewExchange(rootId, requester, target, now);
    RootKeepsSound(s.live.exchanges, s.live.messages, x, rootId, root, e);
    MessageStays(s, unsaved, rootId, root);
    ExchangeStays(WithMessage(s, rootId, root), unsaved, x, e);
    UnsavedAreLive(s, unsaved);
    assert unsaved - {x} == unsaved;
  }

  lemma UnsavedAreLive(s: Store, unsaved: set<Id>)
    requires Recoverable(s, unsaved)
    ensures unsaved <= s.live.exchanges.Keys
  {
  }

  /** The exchanges that are unsaved after a message: its own one when the message
      was turned down after it had been stored, and not its own one otherwise. */
  function UnsavedAfter(s: Store, unsaved: set<Id>, x: Id, r: MessageRequest, tasks: map<Id, Task>,
                        workers: map<Id, Worker>, metadataHolds: bool): set<Id>
  {
    if Refusal(s.live, workers, x, r).Some? then unsaved
    else if IsTurnedDown(s.live.exchanges[x], r, r.actor.value, tasks, workers, metadataHolds) then unsaved + {x}
    else unsaved - {x}
  }

  lemma AddKeeps(s: Store, unsaved: set<Id>, x: Id, r: MessageRequest, id: Id, tasks: map<Id, Task>,
                 workers: map<Id, Worker>, newTask: Id, metadataHolds: bool, now: int)
    requires Consistent(s, unsaved) && id !in s.live.messages
    ensures Consistent(Added(s, x, r, id, tasks, workers, newTask, metadataHolds, now),
                       UnsavedAfter(s, unsaved, x, r, tasks, workers, metadataHolds))
  {
    hide Sound, Recoverable, Decide, IsTurnedDown, ActorMay;
    if Refusal(s.live, workers, x, r).None? {
      var e := s.live.exchanges[x];
      var m := NewMessage(e, x, r, now);
      var noted := Noted(e, id, m, workers, now);
      var done := Decide(noted, m, r.actor.value, tasks, workers, newTask, metadataHolds, now);
      var s1 := WithMessage(s, id, m);
      RootOf(s.live.exchanges, s.live.messages, x);
      AnswerKeepsSound(s.live.exchanges, s.live.messages, x, id, m, done.exchange);
      TurnedDownForetold(e, x, r, id, r.actor.value, tasks, workers, newTask, metadataHolds, now);
      MessageStays(s, unsaved, id, m);
      if done.refusal.Some? {
        ExchangeIsLost(s1, unsaved, x, done.exchange);
      } else {
        ExchangeStays(s1, unsaved, x, done.exchange);
      }
    }
  }

  lemma AddedTells(s: Store, x: Id, r: MessageRequest, id: Id, tasks: map<Id, Task>, workers: map<Id, Worker>,
                   newTask: Id, metadataHolds: bool, now: int)
    requires Refusal(s.live, workers, x, r).None?
    ensures x in s.live.exchanges && r.actor.Some?
    ensures Arranged(s, x, r, id, tasks, workers, newTask, metadataHolds, now).refusal.Some?
      <==> IsTurnedDown(s.live.exchanges[x], r, r.actor.value, tasks, workers, metadataHolds)
  {
    TurnedDownForetold(s.live.exchanges[x], x, r, id, r.actor.value, tasks, workers, newTask, metadataHolds, now);
  }

  lemma UnchangedIfRefused(s: Store, x: Id, r: MessageRequest, id: Id, tasks: map<Id, Task>, workers: map<Id, Worker>,
                           newTask: Id, metadataHolds: bool, now: int)
    requires Refusal(s.live, workers, x, r).Some?
    ensures Added(s, x, r, id, tasks, workers, newTask, metadataHolds, now) == s
  {
  }

  function UnsavedAfterTask(s: Store, unsaved: set<Id>, task: Task): set<Id> {
    if task.exchangeId.Some? then unsaved - {task.exchangeId.value} else unsaved
  }

  lemma FollowKeeps(s: Store, unsaved: set<Id>, id: Id, task: Task, nextStatus: Option<ExchangeStatus>, now: int)
    requires Consistent(s, unsaved)
    ensures Consistent(FollowedTask(s, id, task, nextStatus, now), UnsavedAfterTask(s, unsaved, task))
  {
    hide Sound, Recoverable;
    TaskSyncKeepsThreads(s.live.exchanges, s.live.messages, id, task, nextStatus, now);
    if task.exchangeId.Some? {
      var x := task.exchangeId.value;
      if x in s.live.exchanges {
        ExchangeStays(s, unsaved, x, ExchangeSync.Synced(s.live.exchanges, id, task, nextStatus, now)[x]);
      } else {
        UnsavedAreLive(s, unsaved);
        assert unsaved - {x} == unsaved;
      }
    }
  }

  lemma SaveHotKeeps(s: Store, unsaved: set<Id>)
    requires Consistent(s, unsaved)
    ensures Consistent(SavedHot(s), unsaved)
  {
    hide Sound;
    PlusNothing(SavedHot(s).durable.exchanges);
    PlusNothing(SavedHot(s).durable.messages);
  }

  /** A full save recovers every exchange. */
  lemma SaveFullKeeps(s: Store, unsaved: set<Id>, others: Tables, p: Retention.Policy, now: int)
    requires Consistent(s, unsaved)
    ensures Consistent(SavedFull(s, others, p, now), {})
  {
    hide Sound, Retention.Retain;
    RetentionKeepsThreads(others.(exchanges := s.live.exchanges, messages := s.live.messages), p, now);
    PlusNothing(SavedFull(s, others, p, now).durable.exchanges);
    PlusNothing(SavedFull(s, others, p, now).durable.messages);
  }

  // ----- whole runs -----

  datatype Event =
    | Start(x: Id, rootId: Id, requester: Party, target: Party, at: int)
    | Add(x: Id, request: MessageRequest, id: Id, tasks: map<Id, Task>, workers: map<Id, Worker>,
          newTask: Id, metadataHolds: bool, at: int)
    | Follow(taskId: Id, task: Task, nextStatus: Option<ExchangeStatus>, at: int)
    | SaveHot
    | SaveFull(others: Tables, policy: Retention.Policy, at: int)

  /** New rows get ids that no live row has. */
  predicate HasFreshIds(s: Store, e: Event) {
    match e
    case Start(x, rootId, _, _, _) => x !in s.live.exchanges && rootId !in s.live.messages
    case Add(_, _, id, _, _, _, _, _) => id !in s.live.messages
    case _ => true
  }

  ghost function Step(s: Store, e: Event): Store {
    match e
    case Start(x, rootId, requester, target, at) => Started(s, x, rootId, requester, target, at)
    case Add(x, r, id, tasks, workers, newTask, metadataHolds, at) =>
      Added(s, x, r, id, tasks, workers, newTask, metadataHolds, at)
    case Follow(taskId, task, nextStatus, at) => FollowedTask(s, taskId, task, nextStatus, at)
    case SaveHot => SavedHot(s)
    case SaveFull(others, p, at) => SavedFull(s, others, p, at)
  }

  function UnsavedBy(s: Store, unsaved: set<Id>, e: Event): set<Id> {
    match e
    case Add(x, r, _, tasks, workers, _, metadataHolds, _) =>
      UnsavedAfter(s, unsaved, x, r, tasks, workers, metadataHolds)
    case Follow(_, task, _, _) => UnsavedAfterTask(s, unsaved, task)
    case SaveFull(_, _, _) => {}
    case _ => unsaved
  }

  const EMPTY_STORE := Store(NO_ROWS, NO_ROWS, NO_ROWS)

  ghost function Run(events: seq<Event>): Store {
    if events == [] then EMPTY_STORE else Step(Run(events[..|events| - 1]), events[|events| - 1])
  }

  /** The exchanges whose last message was turned down after it had been stored,
      with no task change, no accepted message and no full save since. */
  ghost function Unsaved(events: seq<Event>): set<Id> {
    if events == [] then {}
    else
      var front := events[..|events| - 1];
      UnsavedBy(Run(front), Unsaved(front), events[|events| - 1])
  }

  ghost predicate HasFreshRun(events: seq<Event>) {
    forall k :: 0 <= k < |events| ==> HasFreshIds(Run(events[..k]), events[k])
  }

  lemma StepKeeps(s: Store, unsaved: set<Id>, e: Event)
    requires Consistent(s, unsaved) && HasFreshIds(s, e)
    ensures Consistent(Step(s, e), UnsavedBy(s, unsaved, e))
  {
    hide Consistent, Started, Added, FollowedTask, SavedHot, SavedFull, UnsavedAfter, UnsavedAfterTask;
    match e
    case Start(x, rootId, requester, target, at) => StartKeeps(s, unsaved, x, rootId, requester, target, at);
    case Add(x, r, id, tasks, workers, newTask, metadataHolds, at) =>
      AddKeeps(s, unsaved, x, r, id, tasks, workers, newTask, metadataHolds, at);
    case Follow(taskId, task, nextStatus, at) => FollowKeeps(s, unsaved, taskId, task, nextStatus, at);
    case SaveHot => SaveHotKeeps(s, unsaved);
    case SaveFull(others, p, at) => SaveFullKeeps(s, unsaved, others, p, at);
  }

  /** In every run of messages, task changes, saves and retention, all threads stay
      trees and every message can be recovered. */
  lemma {:induction false} EveryRunIsConsistent(events: seq<Event>)
    requires HasFreshRun(events)
    ensures Consistent(Run(events), Unsaved(events))
    decreases |events|
  {
    hide HasFreshIds, Step, UnsavedBy;
    if events != [] {
      var front := events[..|events| - 1];
      forall k | 0 <= k < |front| ensures HasFreshIds(Run(front[..k]), front[k]) {
        assert front[..k] == events[..k];
      }
      EveryRunIsConsistent(front);
      StepKeeps(Run(front), Unsaved(front), events[|events| - 1]);
    }
  }

  /** After any run the durable copy and the pending rows give back every exchange
      exactly when none of them is left with a message that was stored and then
      turned down. */
  lemma ExchangesAreRecoverable(events: seq<Event>)
    requires HasFreshRun(events)
    ensures var s := Run(events);
      s.durable.exchanges + s.pending.exchanges == s.live.exchanges <==> Unsaved(events) == {}
  {
    hide Run, Unsaved;
    EveryRunIsConsistent(events);
    RecoveredExactly(Run(events), Unsaved(events));
  }

  /** Such a run: a new exchange, and a message for it while its worker is not known. */
  lemma ExchangesCanBeLost(p: Party)
    ensures var hub := Party(p.id + 1, Some(Hub));
      var r := MessageRequest(Some(hub), true, None, None, None, None);
      var events := [Start(1, 1, p, p, 0), Add(1, r, 2, map[], map[], 3, true, 1)];
      var s := Run(events);
      HasFreshRun(events) && Unsaved(events) == {1} && s.durable.exchanges + s.pending.exchanges != s.live.exchanges
  {
    var hub := Party(p.id + 1, Some(Hub));
    var r := MessageRequest(Some(hub), true, None, None, None, None);
    var start, add := Start(1, 1, p, p, 0), Add(1, r, 2, map[], map[], 3, true, 1);
    var events := [start, add];
    RunTwo(start, add);
    AddToNewExchange(p, hub, r);
    ExchangesAreRecoverable(events);
  }

  lemma RunTwo(a: Event, b: Event)
    requires HasFreshIds(EMPTY_STORE, a) && HasFreshIds(Step(EMPTY_STORE, a), b)
    ensures HasFreshRun([a, b])
    ensures Unsaved([a, b]) == UnsavedBy(Step(EMPTY_STORE, a), UnsavedBy(EMPTY_STORE, {}, a), b)
  {
    hide Step, UnsavedBy, HasFreshIds;
    assert [a, b][..1] == [a] && [a][..0] == [] && [a, b][..0] == [];
    assert Run([a]) == Step(EMPTY_STORE, a);
    assert Unsaved([a]) == UnsavedBy(EMPTY_STORE, {}, a);
  }

  lemma AddToNewExchange(p: Party, hub: Party, r: MessageRequest)
    requires hub == Party(p.id + 1, Some(Hub)) && r == MessageRequest(Some(hub), true, None, None, None, None)
    ensures var s := Started(EMPTY_STORE, 1, 1, p, p, 0);
      Refusal(s.live, map[], 1, r).None? && IsTurnedDown(s.live.exchanges[1], r, hub, map[], map[], true)
      && 2 !in s.live.messages
  {
  }

  // ----- the store -----

  class ExchangeStore {
    var live: Rows
    var pending: Rows
    ghost var durable: Rows
    /** The exchanges that a save of the pending rows would not bring back. */
    ghost var unsaved: set<Id>
    var workers: map<Id, Worker>

    ghost function Now(): Store
      reads this
    {
      Store(live, pending, durable)
    }

    ghost predicate Valid()
      reads this
    {
      Consistent(Now(), unsaved)
    }

    constructor (workers: map<Id, Worker>)
      ensures Valid() && Now() == EMPTY_STORE && unsaved == {}
    {
      live, pending, durable, unsaved, this.workers := NO_ROWS, NO_ROWS, NO_ROWS, {}, workers;
    }

    method SetExchangeRecord(x: Id, e: Exchange)
      modifies this`live, this`pending
      ensures Now() == WithExchange(old(Now()), x, e)
    {
      live := live.(exchanges := live.exchanges[x := e]);
      pending := pending.(exchanges := pending.exchanges[x := e]);
    }

    method SetMessageRecord(id: Id, m: Message)
      modifies this`live, this`pending
      ensures Now() == WithMessage(old(Now()), id, m)
    {
      live := live.(messages := live.messages[id := m]);
      pending := pending.(messages := pending.messages[id := m]);
    }

    method StartExchange(requester: Party, target: Party, now: int) returns (x: Id, ghost rootId: Id)
      requires Valid()
      modifies this`live, this`pending
      ensures Valid() && x !in old(live).exchanges && rootId !in old(live).messages
      ensures Now() == Started(old(Now()), x, rootId, requester, target, now)
    {
      hide Consistent;
      x := FreshId(live.exchanges.Keys);
      var id := FreshId(live.messages.Keys);
      StartKeeps(Now(), unsaved, x, id, requester, target, now);
      SetMessageRecord(id, RootMessage(x, target, now));
      SetExchangeRecord(x, NewExchange(id, requester, target, now));
      rootId := id;
    }

    /** The checks of `Refusal`, one after the other. */
    method CheckMessage(x: Id, r: MessageRequest) returns (refusal: Option<BrokerError>)
      ensures refusal == Refusal(live, workers, x, r)
    {
      if x !in live.exchanges {
        return Some(NotFound);
      }
      if r.actor.None? || !r.hasText {
        return Some(BadRequest);
      }
      if !ActorMay(live.exchanges[x], r, r.actor.value) {
        return Some(PolicyDenied);
      }
      if !IsKnown(workers, r.targetNodeId) || !IsKnown(workers, r.assignedWorkerId) {
        return Some(NotFound);
      }
      if r.parentMessageId.Some? && r.parentMessageId.value !in MessagesOf(live.messages, x) {
        return Some(NotFound);
      }
      return None;
    }

    /** Adds a message under its parent, or under the root. A refused message
        changes nothing; a message that is turned down afterwards stays stored. */
    method AddExchangeMessage(x: Id, r: MessageRequest, tasks: map<Id, Task>, newTask: Id, metadataHolds: bool,
                              now: int)
      returns (res: Result<Id, BrokerError>, ghost id: Id)
      requires Valid()
      modifies this`live, this`pending, this`unsaved
      ensures Valid() && id !in old(live).messages
      ensures Now() == Added(old(Now()), x, r, id, tasks, workers, newTask, metadataHolds, now)
      ensures unsaved == UnsavedAfter(old(Now()), old(unsaved), x, r, tasks, workers, metadataHolds)
      ensures var refusal := Refusal(old(live), workers, x, r);
        if refusal.Some? then res == Err(refusal.value)
        else res.Err? <==> IsTurnedDown(old(live).exchanges[x], r, r.actor.value, tasks, workers, metadataHolds)
      ensures Refusal(old(live), workers, x, r).None? ==> (
        var done := Arranged(old(Now()), x, r, id, tasks, workers, newTask, metadataHolds, now);
        res == if done.refusal.Some? then Err(done.refusal.value) else Ok(id))
    {
      hide Consistent, Arranged, Added, Refusal, IsTurnedDown, ActorMay;
      var newId := FreshId(live.messages.Keys);
      id := newId;
      AddKeeps(Now(), unsaved, x, r, newId, tasks, workers, newTask, metadataHolds, now);
      unsaved := UnsavedAfter(Now(), unsaved, x, r, tasks, workers, metadataHolds);
      var refusal := CheckMessage(x, r);
      if refusal.Some? {
        UnchangedIfRefused(Now(), x, r, newId, tasks, workers, newTask, metadataHolds, now);
        return Err(refusal.value), id;
      }
      AddedTells(Now(), x, r, newId, tasks, workers, newTask, metadataHolds, now);
      var turnedDown := StoreMessage(x, r, newId, tasks, newTask, metadataHolds, now);
      res := if turnedDown.Some? then Err(turnedDown.value) else Ok(newId);
    }

    /** Stores the message, then lets the exchange follow what it says. */
    method StoreMessage(x: Id, r: MessageRequest, id: Id, tasks: map<Id, Task>, newTask: Id, metadataHolds: bool,
                        now: int)
      returns (turnedDown: Option<BrokerError>)
      requires Refusal(live, workers, x, r).None?
      modifies this`live, this`pending
      ensures Now() == Added(old(Now()), x, r, id, tasks, workers, newTask, metadataHolds, now)
      ensures x in old(live).exchanges && r.actor.Some?
      ensures turnedDown == Arranged(old(Now()), x, r, id, tasks, workers, newTask, metadataHolds, now).refusal
    {
      hide Decide, Noted, ActorMay, NewMessage, MessagesOf, IsKnown;
      var exchange := live.exchanges[x];
      var message := NewMessage(exchange, x, r, now);
      SetMessageRecord(id, message);
      exchange := Noted(exchange, id, message, workers, now);
      live := live.(exchanges := live.exchanges[x := exchange]);
      var done := Decide(exchange, message, r.actor.value, tasks, workers, newTask, metadataHolds, now);
      if done.refusal.Some? {
        live := live.(exchanges := live.exchanges[x := done.exchange]);
      } else {
        SetExchangeRecord(x, done.exchange);
      }
      turnedDown := done.refusal;
    }

    method FollowTask(id: Id, task: Task, nextStatus: Option<ExchangeStatus>, now: int)
      requires Valid()
      modifies this`live, this`pending, this`unsaved
      ensures Valid() && Now() == FollowedTask(old(Now()), id, task, nextStatus, now)
      ensures unsaved == UnsavedAfterTask(old(Now()), old(unsaved), task)
    {
      hide Consistent;
      FollowKeeps(Now(), unsaved, id, task, nextStatus, now);
      unsaved := UnsavedAfterTask(Now(), unsaved, task);
      if task.exchangeId.Some? && task.exchangeId.value in live.exchanges {
        var e := live.exchanges[task.exchangeId.value];
        SetExchangeRecord(task.exchangeId.value, Mirrored(e, id, task, now).(status := nextStatus.GetOr(e.status)));
      }
    }

    method PersistHot()
      requires Valid()
      modifies this`pending, this`durable
      ensures Valid() && Now() == SavedHot(old(Now()))
    {
      hide Consistent;
      SaveHotKeeps(Now(), unsaved);
      durable := Rows(durable.exchanges + pending.exchanges, durable.messages + pending.messages);
      pending := NO_ROWS;
    }

    method PersistFull(others: Tables, p: Retention.Policy, now: int)
      requires Valid()
      modifies this`live, this`pending, this`durable, this`unsaved
      ensures Valid() && Now() == SavedFull(old(Now()), others, p, now) && unsaved == {}
    {
      hide Consistent, Retention.Retain;
      SaveFullKeeps(Now(), unsaved, others, p, now);
      var r := Retention.ApplyRetention(others.(exchanges := live.exchanges, messages := live.messages), p, now);
      live := Rows(r.exchanges, r.messages);
      pending, durable, unsaved := NO_ROWS, live, {};
    }

    /** The messages of an exchange, each once, in order. */
    method ListMessages(exchangeId: Id) returns (items: seq<Id>)
      ensures NoRepeats(items) && Elements(items) == MessagesOf(live.messages, exchangeId)
      ensures InOrder(live.messages, items)
    {
      hide NoRepeats, Elements, InOrder, NotAfter;
      items := [];
      NothingListed(live.messages);
      var rest := live.messages.Keys;
      while rest != {}
        invariant rest <= live.messages.Keys && InOrder(live.messages, items)
        invariant NoRepeats(items) && Elements(items) == MessagesOf(live.messages, exchangeId) - rest
        decreases rest
      {
        var m :| m in rest;
        if live.messages[m].exchangeId == exchangeId {
          var i := 0;
          while i < |items| && NotAfter(live.messages, items[i], m)
            invariant i <= |items|
            invariant forall j :: 0 <= j < i ==> NotAfter(live.messages, items[j], m)
          {
            i := i + 1;
          }
          InsertInOrder(live.messages, items, i, m);
          items := items[..i] + [m] + items[i..];
        }
        rest := rest - {m};
      }
    }

    /** All messages, those below one message, or only its direct answers. */
    method ListExchangeMessages(exchangeId: Id, parent: Option<Id>, includeDescendants: bool)
      returns (res: Result<seq<Id>, BrokerError>)
      ensures res.Err? <==>
        exchangeId !in live.exchanges || (parent.Some? && parent.value !in MessagesOf(live.messages, exchangeId))
      ensures res.Err? ==> res.error == NotFound
      ensures res.Ok? ==> NoRepeats(res.value) && InOrder(live.messages, res.value)
      ensures res.Ok? && parent.None? ==> Elements(res.value) == MessagesOf(live.messages, exchangeId)
      ensures res.Ok? && parent.Some? && includeDescendants ==>
        Elements(res.value) == Closure(ThreadLinks(live.messages, exchangeId), {parent.value})
      ensures res.Ok? && parent.Some? && !includeDescendants ==>
        forall m :: m in res.value
          <==> m in MessagesOf(live.messages, exchangeId) && live.messages[m].parentMessageId == parent
    {
      hide Closure, InOrder, NoRepeats;
      if exchangeId !in live.exchanges {
        return Err(NotFound);
      }
      var items := ListMessages(exchangeId);
      if parent.None? {
        return Ok(items);
      }
      if parent.value !in MessagesOf(live.messages, exchangeId) {
        return Err(NotFound);
      }
      var links := ThreadLinks(live.messages, exchangeId);
      assert forall m :: m in items <==> m in Elements(items);
      if includeDescendants {
        var allowed, _ := GrowUntilStable(links, items, {parent.value});
        ClosureIsListed(links, parent.value);
        var listed := Filter(live.messages, items, allowed);
        return Ok(listed);
      }
      var answers := set m | m in items && live.messages[m].parentMessageId == parent;
      var listed := Filter(live.messages, items, answers);
      assert forall m :: m in listed <==> m in Elements(listed);
      return Ok(listed);
    }
  }

  lemma ClosureIsListed(links: Links, parent: Id)
    requires parent in links
    ensures Closure(links, {parent}) <= links.Keys
  {
  }

  /** Oldest first, and the root first among the messages of its instant. */
  predicate NotAfter(messages: map<Id, Message>, a: Id, b: Id) {
    a in messages && b in messages
    && (messages[a].createdAt < messages[b].createdAt
        || (messages[a].createdAt == messages[b].createdAt && (messages[b].isRoot ==> messages[a].isRoot)))
  }

  ghost predicate InOrder(messages: map<Id, Message>, items: seq<Id>) {
    (forall i :: 0 <= i < |items| ==> items[i] in messages)
    && (forall i, j :: 0 <= i < j < |items| ==> NotAfter(messages, items[i], items[j]))
  }

  lemma NothingListed(messages: map<Id, Message>)
    ensures NoRepeats<Id>([]) && Elements<Id>([]) == {} && InOrder(messages, [])
  {
  }

  lemma InsertInOrder(messages: map<Id, Message>, items: seq<Id>, i: nat, m: Id)
    requires InOrder(messages, items) && NoRepeats(items) && m in messages && m !in Elements(items) && i <= |items|
    requires forall j :: 0 <= j < i ==> NotAfter(messages, items[j], m)
    requires i < |items| ==> !NotAfter(messages, items[i], m)
    ensures var longer := items[..i] + [m] + items[i..];
      InOrder(messages, longer) && NoRepeats(longer) && Elements(longer) == Elements(items) + {m}
  {
    hide Elements, NoRepeats;
    var longer := items[..i] + [m] + items[i..];
    BeforeTheRest(messages, items, i, m);
    assert forall j :: 0 <= j < i ==> longer[j] == items[j];
    assert forall j :: i < j < |longer| ==> longer[j] == items[j - 1];
    hide NotAfter;
    InsertOnce(items, i, m);
  }

  lemma BeforeTheRest(messages: map<Id, Message>, items: seq<Id>, i: nat, m: Id)
    requires InOrder(messages, items) && m in messages && i <= |items|
    requires i < |items| ==> !NotAfter(messages, items[i], m)
    ensures forall j :: i <= j < |items| ==> NotAfter(messages, m, items[j])
  {
  }

  lemma InsertOnce(items: seq<Id>, i: nat, m: Id)
    requires NoRepeats(items) && m !in Elements(items) && i <= |items|
    ensures var longer := items[..i] + [m] + items[i..];
      NoRepeats(longer) && Elements(longer) == Elements(items) + {m}
  {
    SplitOnce(items, i);
    hide NoRepeats, Elements;
    AppendNew(items[..i], m);
    ConcatNew(items[..i] + [m], items[i..]);
  }

  lemma SplitOnce(items: seq<Id>, i: nat)
    requires NoRepeats(items) && i <= |items|
    ensures NoRepeats(items[..i]) && NoRepeats(items[i..]) && Elements(items[..i]) !! Elements(items[i..])
    ensures Elements(items[..i]) + Elements(items[i..]) == Elements(items)
  {
    assert items == items[..i] + items[i..];
    forall x | x in items[..i] ensures x !in items[i..] {
      var j :| 0 <= j < i && items[j] == x;
    }
  }

  method Filter(messages: map<Id, Message>, items: seq<Id>, keep: set<Id>) returns (kept: seq<Id>)
    requires NoRepeats(items) && InOrder(messages, items)
    ensures NoRepeats(kept) && Elements(kept) == Elements(items) * keep && InOrder(messages, kept)
  {
    hide NotAfter;
    kept := [];
    for i := 0 to |items|
      invariant NoRepeats(kept) && Elements(kept) == Elements(items[..i]) * keep
      invariant InOrder(messages, kept)
      invariant forall k, j :: 0 <= k < |kept| && i <= j < |items| ==> NotAfter(messages, kept[k], items[j])
    {
      assert items[..i + 1] == items[..i] + [items[i]];
      AppendNew(items[..i], items[i]);
      assert items[i] !in items[..i];
      if items[i] in keep {
        AppendNew(kept, items[i]);
        kept := kept + [items[i]];
      }
    }
    assert items[..|items|] == items;
  }
}
