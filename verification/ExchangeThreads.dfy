/** The messages of an exchange: a tree under its root message. */
module ExchangeThreads {
  import opened Basics
  import opened BrokerTypes
  import ApprovalPolicy
  import opened Lineage
  import ExchangeSync
  import MessageForest
  import Retention
  import TaskMachine

  datatype MessageRequest = MessageRequest(
    actor: Option<Party>,
    hasText: bool,
    decision: Option<Decision>,
    targetNodeId: Option<Id>,
    assignedWorkerId: Option<Id>,
    parentMessageId: Option<Id>)

  // ----- the thread of an exchange -----

  function MessagesOf(messages: map<Id, Message>, exchangeId: Id): (ids: set<Id>)
    ensures ids <= messages.Keys
  {
    set m | m in messages && messages[m].exchangeId == exchangeId
  }

  function ThreadLinks(messages: map<Id, Message>, exchangeId: Id): (links: Links)
    ensures links.Keys == MessagesOf(messages, exchangeId)
  {
    map m | m in messages && messages[m].exchangeId == exchangeId :: messages[m].parentMessageId
  }

  /** The messages are a tree: one root, everything else answers a message of the
      same exchange, and every message descends from the root. */
  ghost predicate IsTree(messages: map<Id, Message>, exchangeId: Id, root: Id) {
    var links := ThreadLinks(messages, exchangeId);
    && root in links && links[root].None?
    && (forall m :: m in links && m != root ==> links[m].Some? && links[m].value in links)
    && Closure(links, {root}) == links.Keys
  }

  ghost predicate ThreadInv(e: Exchange, messages: map<Id, Message>, exchangeId: Id) {
    && IsTree(messages, exchangeId, e.rootMessageId)
    && e.messageCount == |MessagesOf(messages, exchangeId)|
    && e.latestMessageId in MessagesOf(messages, exchangeId)
    && (forall m :: m in MessagesOf(messages, exchangeId) ==> (messages[m].isRoot <==> m == e.rootMessageId))
  }

  ghost predicate Sound(exchanges: map<Id, Exchange>, messages: map<Id, Message>) {
    && (forall x :: x in exchanges ==> ThreadInv(exchanges[x], messages, x))
    && (forall m :: m in messages ==> messages[m].exchangeId in exchanges)
  }

  // ----- one more message -----

  lemma MessagesGrow(messages: map<Id, Message>, id: Id, m: Message, x: Id)
    requires id !in messages
    ensures MessagesOf(messages[id := m], x)
      == if m.exchangeId == x then MessagesOf(messages, x) + {id} else MessagesOf(messages, x)
    ensures ThreadLinks(messages[id := m], x)
      == if m.exchangeId == x then ThreadLinks(messages, x)[id := m.parentMessageId] else ThreadLinks(messages, x)
  {
  }

  lemma WalkSurvives(links: Links, start: set<Id>, id: Id, parent: Option<Id>)
    requires id !in links
    ensures Closure(links, start) <= Closure(links[id := parent], start)
  {
    forall x | x in Closure(links, start) ensures x in Closure(links[id := parent], start) {
      var p :| IsWalk(links, start, p) && p[|p| - 1] == x;
      assert IsWalk(links[id := parent], start, p);
    }
  }

  lemma TreeGrows(messages: map<Id, Message>, x: Id, root: Id, id: Id, m: Message)
    requires IsTree(messages, x, root) && id !in messages
    requires m.exchangeId == x && m.parentMessageId.Some? && m.parentMessageId.value in MessagesOf(messages, x)
    ensures IsTree(messages[id := m], x, root)
  {
    hide Closure, Follows;
    var links, links' := ThreadLinks(messages, x), ThreadLinks(messages[id := m], x);
    MessagesGrow(messages, id, m, x);
    WalkSurvives(links, {root}, id, m.parentMessageId);
    NextFollows(links', {root}, id);
    ClosureIsLeast(links', {root}, links'.Keys);
  }

  /** A message of one exchange leaves every other thread alone. */
  lemma OtherThreadsStay(e: Exchange, messages: map<Id, Message>, x: Id, id: Id, m: Message)
    requires ThreadInv(e, messages, x) && id !in messages && m.exchangeId != x
    ensures ThreadInv(e, messages[id := m], x)
  {
    MessagesGrow(messages, id, m, x);
  }

  lemma AnswerKeepsThread(e: Exchange, messages: map<Id, Message>, x: Id, id: Id, m: Message, e': Exchange)
    requires ThreadInv(e, messages, x) && id !in messages
    requires m.exchangeId == x && !m.isRoot
    requires m.parentMessageId.Some? && m.parentMessageId.value in MessagesOf(messages, x)
    requires e'.rootMessageId == e.rootMessageId && e'.messageCount == e.messageCount + 1 && e'.latestMessageId == id
    ensures ThreadInv(e', messages[id := m], x)
  {
    hide IsTree;
    MessagesGrow(messages, id, m, x);
    TreeGrows(messages, x, e.rootMessageId, id, m);
    RootIsListed(messages, x, e.rootMessageId);
  }

  lemma RootIsListed(messages: map<Id, Message>, x: Id, root: Id)
    requires IsTree(messages, x, root)
    ensures root in MessagesOf(messages, x)
  {
  }

  lemma FirstMessage(messages: map<Id, Message>, x: Id, id: Id, m: Message, e: Exchange)
    requires MessagesOf(messages, x) == {} && id !in messages
    requires m.exchangeId == x && m.isRoot && m.parentMessageId.None?
    requires e.rootMessageId == id && e.latestMessageId == id && e.messageCount == 1
    ensures ThreadInv(e, messages[id := m], x)
  {
    hide Closure, Follows;
    MessagesGrow(messages, id, m, x);
    var links := ThreadLinks(messages[id := m], x);
    assert MessagesOf(messages[id := m], x) == {id};
    StartFollows(links, {id});
    ClosureIsLeast(links, {id}, {id});
  }

  // ----- what else touches exchanges -----

  /** The same thread, whatever else changed in the record. */
  predicate SameThread(a: Exchange, b: Exchange) {
    a.rootMessageId == b.rootMessageId && a.latestMessageId == b.latestMessageId && a.messageCount == b.messageCount
  }

  lemma RecordKeepsThreads(exchanges: map<Id, Exchange>, messages: map<Id, Message>, x: Id, e: Exchange)
    requires Sound(exchanges, messages) && x in exchanges && SameThread(exchanges[x], e)
    ensures Sound(exchanges[x := e], messages)
  {
    hide IsTree;
  }

  /** Following a task changes no thread. */
  lemma TaskSyncKeepsThreads(exchanges: map<Id, Exchange>, messages: map<Id, Message>, id: Id, task: Task,
                             nextStatus: Option<ExchangeStatus>, now: int)
    requires Sound(exchanges, messages)
    ensures Sound(ExchangeSync.Synced(exchanges, id, task, nextStatus, now), messages)
  {
    hide Sound;
    if task.exchangeId.Some? && task.exchangeId.value in exchanges {
      var x := task.exchangeId.value;
      RecordKeepsThreads(exchanges, messages, x, ExchangeSync.Synced(exchanges, id, task, nextStatus, now)[x]);
    }
  }

  /** Retention prunes whole threads only. */
  lemma RetentionKeepsThreads(db: Tables, p: Retention.Policy, now: int)
    requires Sound(db.exchanges, db.messages)
    ensures Sound(Retention.Retain(db, p, now).exchanges, Retention.Retain(db, p, now).messages)
  {
    hide IsTree, ThreadLinks, MessagesOf, Retention.Retain;
    var r := Retention.Retain(db, p, now);
    Retention.OwnedRowsFollowTheirOwner(db, p, now);
    RetainedRows(db, p, now);
    forall x | x in r.exchanges ensures ThreadInv(r.exchanges[x], r.messages, x) {
      SameMessages(db.messages, r.messages, x);
      SameTree(db.messages, r.messages, x, r.exchanges[x].rootMessageId);
    }
  }

  lemma SameMessages(a: map<Id, Message>, b: map<Id, Message>, x: Id)
    requires forall m :: m in b ==> m in a && b[m] == a[m]
    requires forall m :: m in a && a[m].exchangeId == x ==> m in b
    ensures MessagesOf(a, x) == MessagesOf(b, x) && ThreadLinks(a, x) == ThreadLinks(b, x)
    ensures forall m :: m in MessagesOf(a, x) ==> m in b && b[m] == a[m]
  {
  }

  lemma SameTree(a: map<Id, Message>, b: map<Id, Message>, x: Id, root: Id)
    requires ThreadLinks(a, x) == ThreadLinks(b, x)
    ensures IsTree(a, x, root) == IsTree(b, x, root)
  {
  }

  lemma RetainedRows(db: Tables, p: Retention.Policy, now: int)
    ensures var r := Retention.Retain(db, p, now);
      && (forall x :: x in r.exchanges ==> x in db.exchanges && r.exchanges[x] == db.exchanges[x])
      && (forall m :: m in r.messages ==> m in db.messages && r.messages[m] == db.messages[m])
  {
    hide Retention.Keep, Retention.KeptAudit;
  }

  // ----- what the tree gives -----

  /** A tree has no circle of answers. */
  lemma TreeHasNoCycle(messages: map<Id, Message>, x: Id, root: Id)
    requires IsTree(messages, x, root)
    ensures MessageForest.NoCycle(ThreadLinks(messages, x), MessagesOf(messages, x))
  {
    var links := ThreadLinks(messages, x);
    forall stuck | MessageForest.IsStuck(links, stuck) ensures !(stuck <= links.Keys) {
      if stuck <= links.Keys {
        var m :| m in stuck;
        assert m in Closure(links, {root});
        var p :| IsWalk(links, {root}, p) && p[|p| - 1] == m;
        StuckWalk(links, root, stuck, p);
      }
    }
  }

  lemma {:induction false} StuckWalk(links: Links, root: Id, stuck: set<Id>, p: seq<Id>)
    requires MessageForest.IsStuck(links, stuck) && root in links && links[root].None?
    requires IsWalk(links, {root}, p)
    ensures p[|p| - 1] !in stuck
    decreases |p|
  {
    if |p| > 1 {
      assert links[p[|p| - 1]] == Some(p[|p| - 2]);
      assert IsWalk(links, {root}, p[..|p| - 1]);
      StuckWalk(links, root, stuck, p[..|p| - 1]);
    }
  }

  /** Any part of an exchange's messages is shown complete: nothing drops out of
      its threads and nothing is shown twice. */
  lemma ThreadsShowEverything(e: Exchange, messages: map<Id, Message>, x: Id, items: seq<Id>)
    requires ThreadInv(e, messages, x)
    requires NoRepeats(items) && Elements(items) <= MessagesOf(messages, x)
    ensures multiset(MessageForest.FlattenAll(MessageForest.ThreadsOf(ThreadLinks(messages, x), items)))
      == multiset(items)
  {
    hide MessageForest.ThreadsOf, MessageForest.FlattenAll, IsTree;
    var links := ThreadLinks(messages, x);
    TreeHasNoCycle(messages, x, e.rootMessageId);
    assert MessageForest.NoCycle(links, Elements(items));
    MessageForest.ThreadsAreAPermutation(links, items);
  }

  /** The whole exchange is a single thread, under the root message. */
  lemma OneThread(e: Exchange, messages: map<Id, Message>, x: Id, items: seq<Id>)
    requires ThreadInv(e, messages, x)
    requires NoRepeats(items) && Elements(items) == MessagesOf(messages, x)
    ensures MessageForest.IdsOf(MessageForest.ThreadsOf(ThreadLinks(messages, x), items)) == [e.rootMessageId]
  {
    hide MessageForest.ThreadsOf, Closure;
    var links := ThreadLinks(messages, x);
    var starters := MessageForest.Starters(links, items, items);
    assert forall m :: m in items <==> m in Elements(items);
    assert forall m :: m in starters <==> m == e.rootMessageId;
    MessageForest.StartersOnce(links, items, items);
    MessageForest.ThreadsAreWellFormed(links, items);
    assert e.rootMessageId in starters;
    assert forall i :: 0 <= i < |starters| ==> starters[i] in starters;
  }

  // ----- what a message asks for -----

  predicate ActorMay(exchange: Exchange, r: MessageRequest, actor: Party) {
    var isPrivileged := actor.role == Some(Hub) || actor.role == Some(Operator);
    var isRequester, isTarget := actor.id == exchange.requester.id, actor.id == exchange.target.id;
    && (isPrivileged || isRequester || isTarget)
    && !(isRequester && exchange.requester.role.Some? && actor.role.Some? && exchange.requester.role != actor.role)
    && !(isTarget && exchange.target.role.Some? && actor.role.Some? && exchange.target.role != actor.role)
    && (r.targetNodeId.Some? || r.assignedWorkerId.Some? ==> isPrivileged)
    && (r.decision.Some? ==> isPrivileged || isTarget)
  }

  function NewMessage(e: Exchange, exchangeId: Id, r: MessageRequest, now: int): Message {
    Message(exchangeId, false, Some(r.parentMessageId.GetOr(e.rootMessageId)), r.decision,
            r.targetNodeId.GetOr(e.target.id), r.assignedWorkerId, now)
  }

  function PartyOf(workers: map<Id, Worker>, id: Id): Party
    requires id in workers
  {
    Party(id, Some(workers[id].role))
  }

  /** The exchange after a message, up to the task that the message asks for. */
  function Noted(e: Exchange, id: Id, m: Message, workers: map<Id, Worker>, now: int): (e': Exchange)
    ensures e'.rootMessageId == e.rootMessageId && e'.messageCount == e.messageCount + 1 && e'.latestMessageId == id
  {
    e.(messageCount := e.messageCount + 1, latestMessageId := id, updatedAt := Some(now),
       targetNodeId := m.targetNodeId,
       assignedWorkerId := if m.assignedWorkerId.Some? then m.assignedWorkerId else e.assignedWorkerId,
       currentDecision := if m.decision.Some? then m.decision else e.currentDecision,
       target := if m.targetNodeId in workers then PartyOf(workers, m.targetNodeId) else e.target)
  }

  /** The exchange as far as the call got, and why it stopped. */
  datatype Arrangement = Arrangement(exchange: Exchange, refusal: Option<BrokerError>)

  predicate HasLiveTask(e: Exchange, tasks: map<Id, Task>) {
    e.activeTaskId.Some? && e.activeTaskId.value in tasks && !IsTerminalTask(tasks[e.activeTaskId.value].status)
  }

  /** Makes sure that a live task works for the exchange: the active one, moved
      if it sits elsewhere, or a new one. */
  function EnsureTask(e: Exchange, x: Id, worker: Id, actor: Party, tasks: map<Id, Task>, workers: map<Id, Worker>,
                      newTask: Id, metadataHolds: bool, now: int): (a: Arrangement)
    ensures SameThread(e, a.exchange)
  {
    if worker !in workers || e.targetNodeId !in workers then Arrangement(e, Some(NotFound))
    else if HasLiveTask(e, tasks) then
      var current := tasks[e.activeTaskId.value];
      if current.targetNodeId == e.targetNodeId && current.assignedWorkerId == worker then
        Arrangement(e.(status := ExchangeRunning), None)
      else
        match TaskMachine.RunReassign(current, workers, Some(actor), Some(e.targetNodeId), Some(worker), now)
        case Refused(error) => Arrangement(e, Some(error))
        case Same => Arrangement(e.(status := ExchangeRunning), None)
        case Changed(moved, _) =>
          Arrangement((if current.exchangeId == Some(x) then Mirrored(e, e.activeTaskId.value, moved, now) else e)
                        .(status := ExchangeRunning), None)
    else if !metadataHolds then Arrangement(e, Some(BadRequest))
    else
      Arrangement(e.(activeTaskId := Some(newTask), assignedWorkerId := Some(worker),
                     target := PartyOf(workers, e.targetNodeId)), None)
  }

  /** The request that `EnsureTask` makes for a new task: no identifier, no workspace
      and no proposal. */
  function TaskRequest(e: Exchange, x: Id, worker: Id, intent: Intent, payload: Id, workers: map<Id, Worker>)
    : ApprovalPolicy.CreateRequest
    requires e.targetNodeId in workers
  {
    ApprovalPolicy.CreateRequest(None, Some(x), None, None, intent, Some(e.requester),
                                 Some(PartyOf(workers, e.targetNodeId)), Some(worker), None, None, {}, None, None,
                                 None, payload)
  }

  /** Such a request fails only if its metadata does not hold, and otherwise leaves a
      live task that works for the exchange where it should. */
  lemma NewTaskForetold(b: TaskMachine.Book, e: Exchange, x: Id, worker: Id, intent: Intent, payload: Id, newTask: Id,
                        metadataHolds: bool, cfg: TaskMachine.Config, db: Tables, now: int)
    requires x in db.exchanges && worker in db.workers && e.targetNodeId in db.workers
    ensures var r := TaskRequest(e, x, worker, intent, payload, db.workers);
      var reply := TaskMachine.DoCreate(b, r, newTask, metadataHolds, cfg, db, now);
      && (reply.result.Err? <==> !metadataHolds)
      && (!metadataHolds ==> reply.result == Err(BadRequest) && reply.book == b)
      && (metadataHolds ==>
            newTask in reply.book.tasks && reply.result == Ok(reply.book.tasks[newTask])
            && !IsTerminalTask(reply.book.tasks[newTask].status) && reply.book.tasks[newTask].exchangeId == Some(x)
            && !SitsElsewhere(reply.book.tasks[newTask], e.targetNodeId, worker))
  {
    hide ApprovalPolicy.NormalizeContext;
  }

  /** The active task, if it is live, is canceled; the exchange follows it. */
  function CancelActive(e: Exchange, x: Id, tasks: map<Id, Task>, now: int): (e': Exchange)
    ensures SameThread(e, e')
  {
    if HasLiveTask(e, tasks) && tasks[e.activeTaskId.value].exchangeId == Some(x) then
      Mirrored(e, e.activeTaskId.value, tasks[e.activeTaskId.value], now).(status := ExchangeQueued)
    else e
  }

  /** What the decision in a message, or its absence, does to the exchange. */
  function Decide(e: Exchange, m: Message, actor: Party, tasks: map<Id, Task>, workers: map<Id, Worker>,
                  newTask: Id, metadataHolds: bool, now: int): (a: Arrangement)
    ensures SameThread(e, a.exchange)
  {
    match m.decision
    case None =>
      var a := EnsureTask(e, m.exchangeId, e.assignedWorkerId.GetOr(e.targetNodeId), actor, tasks, workers, newTask,
                          metadataHolds, now);
      if a.refusal.Some? then a else Arrangement(a.exchange.(status := ExchangeQueued), None)
    case Some(NeedsClarification) =>
      Arrangement(CancelActive(e.(status := ExchangeQueued), m.exchangeId, tasks, now), None)
    case Some(Declined) =>
      Arrangement(CancelActive(e.(status := ExchangeFailed), m.exchangeId, tasks, now).(status := ExchangeFailed), None)
    case Some(_) =>
      var worker := e.assignedWorkerId.GetOr(e.targetNodeId);
      EnsureTask(e.(assignedWorkerId := Some(worker), status := ExchangeRunning), m.exchangeId, worker, actor, tasks,
                 workers, newTask, metadataHolds, now)
  }

  /** The live task works for another node, or is assigned to another worker. */
  predicate SitsElsewhere(t: Task, target: Id, worker: Id) {
    t.targetNodeId != target || t.assignedWorkerId != worker
  }

  /** No task can be arranged: a worker is unknown, a live task would have to be
      moved by somebody who may not, or a new one cannot be created. */
  predicate CannotEnsure(e: Exchange, target: Id, worker: Id, actor: Party, tasks: map<Id, Task>,
                         workers: map<Id, Worker>, metadataHolds: bool)
  {
    || worker !in workers
    || target !in workers
    || if HasLiveTask(e, tasks) then
         !TaskMachine.IsPrivileged(actor) && SitsElsewhere(tasks[e.activeTaskId.value], target, worker)
       else !metadataHolds
  }

  /** Whatever the message says, it is turned down exactly when it asks for a task
      and none can be arranged. */
  lemma TurnedDown(e: Exchange, m: Message, actor: Party, tasks: map<Id, Task>, workers: map<Id, Worker>,
                   newTask: Id, metadataHolds: bool, now: int)
    ensures Decide(e, m, actor, tasks, workers, newTask, metadataHolds, now).refusal.Some?
      <==> m.decision != Some(NeedsClarification) && m.decision != Some(Declined)
           && CannotEnsure(e, e.targetNodeId, e.assignedWorkerId.GetOr(e.targetNodeId), actor, tasks, workers,
                           metadataHolds)
  {
  }

  /** The same, foretold from the request and the exchange before the call: the
      message names target and worker, or leaves the exchange's. */
  predicate IsTurnedDown(e: Exchange, r: MessageRequest, actor: Party, tasks: map<Id, Task>, workers: map<Id, Worker>,
                         metadataHolds: bool)
  {
    var target := r.targetNodeId.GetOr(e.target.id);
    var worker := if r.assignedWorkerId.Some? then r.assignedWorkerId.value else e.assignedWorkerId.GetOr(target);
    r.decision != Some(NeedsClarification) && r.decision != Some(Declined)
    && CannotEnsure(e, target, worker, actor, tasks, workers, metadataHolds)
  }

  lemma TurnedDownForetold(e: Exchange, x: Id, r: MessageRequest, id: Id, actor: Party, tasks: map<Id, Task>,
                           workers: map<Id, Worker>, newTask: Id, metadataHolds: bool, now: int)
    ensures var m := NewMessage(e, x, r, now);
      Decide(Noted(e, id, m, workers, now), m, actor, tasks, workers, newTask, metadataHolds, now).refusal.Some?
      <==> IsTurnedDown(e, r, actor, tasks, workers, metadataHolds)
  {
    var m := NewMessage(e, x, r, now);
    TurnedDown(Noted(e, id, m, workers, now), m, actor, tasks, workers, newTask, metadataHolds, now);
  }

  /** A node that accepts an exchange whose live task sits elsewhere is turned
      down, although its message stays: only hubs and operators may move a task. */
  lemma AcceptanceCanBeTurnedDown(e: Exchange, m: Message, actor: Party, tasks: map<Id, Task>, workers: map<Id, Worker>,
                                  newTask: Id, metadataHolds: bool, now: int)
    requires m.decision == Some(Accepted) && HasLiveTask(e, tasks)
    requires e.targetNodeId in workers && e.assignedWorkerId.GetOr(e.targetNodeId) in workers
    ensures var current := tasks[e.activeTaskId.value];
      Decide(e, m, actor, tasks, workers, newTask, metadataHolds, now).refusal.Some?
      <==> !TaskMachine.IsPrivileged(actor)
           && SitsElsewhere(current, e.targetNodeId, e.assignedWorkerId.GetOr(e.targetNodeId))
  {
    TurnedDown(e, m, actor, tasks, workers, newTask, metadataHolds, now);
  }

  // ----- one call on all threads -----

  lemma RootOf(exchanges: map<Id, Exchange>, messages: map<Id, Message>, x: Id)
    requires Sound(exchanges, messages) && x in exchanges
    ensures exchanges[x].rootMessageId in MessagesOf(messages, x)
  {
    hide IsTree;
    assert ThreadInv(exchanges[x], messages, x);
    RootIsListed(messages, x, exchanges[x].rootMessageId);
  }

  lemma AnswerKeepsSound(exchanges: map<Id, Exchange>, messages: map<Id, Message>, x: Id, id: Id, m: Message,
                         e: Exchange)
    requires Sound(exchanges, messages) && x in exchanges && id !in messages
    requires m.exchangeId == x && !m.isRoot
    requires m.parentMessageId.Some? && m.parentMessageId.value in MessagesOf(messages, x)
    requires e.rootMessageId == exchanges[x].rootMessageId && e.messageCount == exchanges[x].messageCount + 1
      && e.latestMessageId == id
    ensures Sound(exchanges[x := e], messages[id := m])
  {
    hide ThreadInv;
    AnswerKeepsThread(exchanges[x], messages, x, id, m, e);
    forall y | y in exchanges && y != x ensures ThreadInv(exchanges[y], messages[id := m], y) {
      OtherThreadsStay(exchanges[y], messages, y, id, m);
    }
  }

  lemma RootKeepsSound(exchanges: map<Id, Exchange>, messages: map<Id, Message>, x: Id, id: Id, m: Message, e: Exchange)
    requires Sound(exchanges, messages) && x !in exchanges && id !in messages
    requires m.exchangeId == x && m.isRoot && m.parentMessageId.None?
    requires e.rootMessageId == id && e.latestMessageId == id && e.messageCount == 1
    ensures Sound(exchanges[x := e], messages[id := m])
  {
    hide ThreadInv;
    assert MessagesOf(messages, x) == {};
    FirstMessage(messages, x, id, m, e);
    forall y | y in exchanges ensures ThreadInv(exchanges[y], messages[id := m], y) {
      OtherThreadsStay(exchanges[y], messages, y, id, m);
    }
  }
}
