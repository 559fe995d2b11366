/** Exchanges that follow their tasks: one task at a time, or many in one call. */
module ExchangeSync {
  import opened Basics
  import opened BrokerTypes
  import opened TaskMachine
  import Retention

  /** The exchanges after one of their tasks changed. */
  function Synced(exchanges: map<Id, Exchange>, id: Id, task: Task, nextStatus: Option<ExchangeStatus>, now: int)
    : map<Id, Exchange>
  {
    if task.exchangeId.Some? && task.exchangeId.value in exchanges then
      var e := exchanges[task.exchangeId.value];
      exchanges[task.exchangeId.value := Mirrored(e, id, task, now).(status := nextStatus.GetOr(e.status))]
    else exchanges
  }

  lemma NoExchangeToSync(exchanges: map<Id, Exchange>, id: Id, task: Task, now: int)
    ensures task.exchangeId.None? ==> Synced(exchanges, id, task, None, now) == exchanges
  {
  }

  /** What a retention pass, or none, leaves of exchanges and workers: rows go
      unchanged, and no live exchange goes. */
  ghost predicate KeptRows(exchanges: map<Id, Exchange>, workers: map<Id, Worker>, t: Tables) {
    && (forall x :: x in t.exchanges ==> x in exchanges && t.exchanges[x] == exchanges[x])
    && (forall x :: x in exchanges && !IsTerminalExchange(exchanges[x].status) ==> x in t.exchanges)
    && (forall w :: w in t.workers ==> w in workers && t.workers[w] == workers[w])
  }

  lemma RetainKeepsRows(db: Tables, p: Retention.Policy, now: int)
    ensures KeptRows(db.exchanges, db.workers, Retention.Retain(db, p, now))
  {
    hide Retention.Keep, Retention.KeptAudit;
    Retention.LiveRowsSurvive(db, p, now);
  }

  lemma SameRows(exchanges: map<Id, Exchange>, workers: map<Id, Worker>, t: Tables, t': Tables)
    requires KeptRows(exchanges, workers, t) && t'.exchanges == t.exchanges && t'.workers == t.workers
    ensures KeptRows(exchanges, workers, t')
  {
  }

  lemma RowsOfItself(t: Tables)
    ensures KeptRows(t.exchanges, t.workers, t)
  {
  }

  // ----- exchanges whose tasks change together -----

  predicate IsNamed(tasks: map<Id, Task>, ids: set<Id>, x: Id) {
    exists a :: a in ids && a in tasks && tasks[a].exchangeId == Some(x)
  }

  /** Everything an exchange takes over from its task. */
  predicate SameAssignment(a: Task, b: Task) {
    a.exchangeId == b.exchangeId && a.targetNodeId == b.targetNodeId && a.assignedWorkerId == b.assignedWorkerId
    && a.target == b.target
  }

  lemma SweepKeepsAssignment(t: Task, cap: nat, now: int)
    ensures SameAssignment(DeadLetteredTask(t, cap, now), t) && SameAssignment(RequeuedTask(t, now), t)
  {
  }

  /** The exchange follows one of its tasks in `ids`. */
  ghost predicate FollowsOne(e: Exchange, e': Exchange, x: Id, tasks: map<Id, Task>, ids: set<Id>, failed: set<Id>,
                             now: int)
  {
    exists a :: a in ids && a in tasks && tasks[a].exchangeId == Some(x)
      && e' == Mirrored(e, a, tasks[a], now).(status := if a in failed then ExchangeFailed else ExchangeQueued)
  }

  /** Exchanges named by one of the tasks follow one of them, the others stay. */
  ghost predicate Moved(es: map<Id, Exchange>, es': map<Id, Exchange>, tasks: map<Id, Task>, ids: set<Id>,
                        failed: set<Id>, now: int)
  {
    forall x :: x in es' ==>
      x in es
      && if IsNamed(tasks, ids, x) then FollowsOne(es[x], es'[x], x, tasks, ids, failed, now) else es'[x] == es[x]
  }

  ghost predicate LiveStay(es: map<Id, Exchange>, es': map<Id, Exchange>) {
    forall x :: x in es && !IsTerminalExchange(es[x].status) ==> x in es' && !IsTerminalExchange(es'[x].status)
  }

  lemma MovedNothing(es: map<Id, Exchange>, tasks: map<Id, Task>, now: int)
    ensures Moved(es, es, tasks, {}, {}, now) && LiveStay(es, es)
  {
  }

  /** One canceled task moves its exchange to the queue. */
  lemma MovedOne(es: map<Id, Exchange>, workers: map<Id, Worker>, t: Tables, tasks: map<Id, Task>, id: Id, task: Task,
                 now: int)
    requires id in tasks && KeptRows(Synced(es, id, task, Some(ExchangeQueued), now), workers, t)
    requires SameAssignment(task, tasks[id])
    ensures Moved(es, t.exchanges, tasks, {id}, {}, now) && LiveStay(es, t.exchanges)
  {
    var synced := Synced(es, id, task, Some(ExchangeQueued), now);
    forall x | x in t.exchanges
      ensures x in es
        && if IsNamed(tasks, {id}, x) then FollowsOne(es[x], t.exchanges[x], x, tasks, {id}, {}, now)
           else t.exchanges[x] == es[x]
    {
      assert x in synced;
      if tasks[id].exchangeId == Some(x) {
        assert t.exchanges[x] == Mirrored(es[x], id, tasks[id], now).(status := ExchangeQueued);
      }
    }
  }

  lemma MovedTwice(es: map<Id, Exchange>, mid: map<Id, Exchange>, es': map<Id, Exchange>, tasks: map<Id, Task>,
                   tasks1: map<Id, Task>, ids: set<Id>, more: set<Id>, failed: set<Id>, failed': set<Id>, now: int)
    requires Moved(es, mid, tasks, ids, failed, now) && Moved(mid, es', tasks1, more, failed', now)
    requires forall a :: a in more ==> a in tasks1 && a in tasks && tasks1[a] == tasks[a]
    requires failed <= ids && failed' <= more && ids !! more
    ensures Moved(es, es', tasks, ids + more, failed + failed', now)
  {
    forall x | x in es'
      ensures x in es
        && if IsNamed(tasks, ids + more, x) then FollowsOne(es[x], es'[x], x, tasks, ids + more, failed + failed', now)
           else es'[x] == es[x]
    {
      FollowsLast(es[x], mid[x], es'[x], x, tasks, tasks1, ids, more, failed, failed', now);
    }
  }

  lemma QueuedTwice(es: map<Id, Exchange>, mid: map<Id, Exchange>, es': map<Id, Exchange>, tasks: map<Id, Task>,
                    tasks1: map<Id, Task>, ids: set<Id>, more: set<Id>, now: int)
    requires Moved(es, mid, tasks, ids, {}, now) && Moved(mid, es', tasks1, more, {}, now)
    requires LiveStay(es, mid) && LiveStay(mid, es')
    requires forall a :: a in more ==> a in tasks1 && a in tasks && tasks1[a] == tasks[a]
    requires ids !! more
    ensures Moved(es, es', tasks, ids + more, {}, now) && LiveStay(es, es')
  {
    var none: set<Id> := {};
    MovedTwice(es, mid, es', tasks, tasks1, ids, more, none, none, now);
    assert none + none == none;
  }

  /** One more swept task takes its exchange along. */
  lemma MovedMore(es: map<Id, Exchange>, mid: map<Id, Exchange>, tasks: map<Id, Task>, ids: set<Id>, failed: set<Id>,
                  id: Id, task: Task, fails: bool, now: int)
    requires Moved(es, mid, tasks, ids, failed, now) && failed <= ids && id !in ids && id in tasks
    requires SameAssignment(task, tasks[id])
    ensures Moved(es, Synced(mid, id, task, Some(if fails then ExchangeFailed else ExchangeQueued), now), tasks,
                  ids + {id}, if fails then failed + {id} else failed, now)
  {
    var failed' := if fails then {id} else {};
    var synced := Synced(mid, id, task, Some(if fails then ExchangeFailed else ExchangeQueued), now);
    forall x | x in synced
      ensures x in mid
        && if IsNamed(tasks, {id}, x) then FollowsOne(mid[x], synced[x], x, tasks, {id}, failed', now)
           else synced[x] == mid[x]
    {
      if tasks[id].exchangeId == Some(x) {
        assert synced[x] == Mirrored(mid[x], id, tasks[id], now).(
          status := if id in failed' then ExchangeFailed else ExchangeQueued);
      }
    }
    MovedTwice(es, mid, synced, tasks, tasks, ids, {id}, failed, failed', now);
    assert failed + failed' == if fails then failed + {id} else failed;
  }

  lemma MovedThenKept(es: map<Id, Exchange>, mid: Tables, t: Tables, tasks: map<Id, Task>, ids: set<Id>,
                      failed: set<Id>, now: int)
    requires Moved(es, mid.exchanges, tasks, ids, failed, now) && KeptRows(mid.exchanges, mid.workers, t)
    ensures Moved(es, t.exchanges, tasks, ids, failed, now)
    ensures LiveStay(es, mid.exchanges) ==> LiveStay(es, t.exchanges)
    ensures forall x ::
      x in es && x in mid.exchanges && !IsTerminalExchange(mid.exchanges[x].status) ==> x in t.exchanges
  {
    hide FollowsOne, IsNamed;
  }

  /** A change of one live task that keeps its parent and its assignment makes no
      difference to what a cancellation reaches or moves. */
  lemma MovedAlike(es: map<Id, Exchange>, es': map<Id, Exchange>, tasks: map<Id, Task>, id: Id, task: Task, now: int)
    requires id in tasks && SameAssignment(task, tasks[id]) && task.parentTaskId == tasks[id].parentTaskId
    requires IsTerminalTask(task.status) <==> IsTerminalTask(tasks[id].status)
    requires Moved(es, es', tasks[id := task], CancelSet(tasks[id := task], id), {}, now)
    ensures Moved(es, es', tasks, CancelSet(tasks, id), {}, now)
  {
    CancelSetAlike(tasks, id, task);
    var ids := CancelSet(tasks, id);
    hide CancelSet;
    forall x | x in es'
      ensures x in es
        && if IsNamed(tasks, ids, x) then FollowsOne(es[x], es'[x], x, tasks, ids, {}, now) else es'[x] == es[x]
    {
      assert IsNamed(tasks[id := task], ids, x) <==> IsNamed(tasks, ids, x) by {
        NamedAlike(tasks, id, task, ids, x);
      }
      if FollowsOne(es[x], es'[x], x, tasks[id := task], ids, {}, now) {
        FollowsAlike(es[x], es'[x], x, tasks, id, task, ids, now);
      }
    }
  }

  lemma NamedAlike(tasks: map<Id, Task>, id: Id, task: Task, ids: set<Id>, x: Id)
    requires id in tasks && SameAssignment(task, tasks[id])
    ensures IsNamed(tasks[id := task], ids, x) <==> IsNamed(tasks, ids, x)
  {
    forall a | a in ids && a in tasks
      ensures tasks[id := task][a].exchangeId == tasks[a].exchangeId
    {
    }
  }

  lemma FollowsAlike(e: Exchange, e': Exchange, x: Id, tasks: map<Id, Task>, id: Id, task: Task, ids: set<Id>, now: int)
    requires id in tasks && SameAssignment(task, tasks[id])
    requires FollowsOne(e, e', x, tasks[id := task], ids, {}, now)
    ensures FollowsOne(e, e', x, tasks, ids, {}, now)
  {
    var after := tasks[id := task];
    var a :| a in ids && a in after && after[a].exchangeId == Some(x)
      && e' == Mirrored(e, a, after[a], now).(status := ExchangeQueued);
    assert e' == Mirrored(e, a, tasks[a], now).(status := ExchangeQueued);
  }

  lemma CancelSetAlike(tasks: map<Id, Task>, id: Id, task: Task)
    requires id in tasks && task.parentTaskId == tasks[id].parentTaskId
    requires IsTerminalTask(task.status) <==> IsTerminalTask(tasks[id].status)
    ensures CancelSet(tasks[id := task], id) == CancelSet(tasks, id)
  {
    var after := tasks[id := task];
    forall p ensures IsChildPath(after, p) <==> IsChildPath(tasks, p) {
      assert forall i :: 0 <= i < |p| ==> (IsLive(after, p[i]) <==> IsLive(tasks, p[i]));
    }
    forall x ensures Reaches(after, id, x) <==> Reaches(tasks, id, x) {
      if p :| IsChildPath(after, p) && p[0] == id && p[|p| - 1] == x {
        assert IsChildPath(tasks, p);
      }
      if p :| IsChildPath(tasks, p) && p[0] == id && p[|p| - 1] == x {
        assert IsChildPath(after, p);
      }
    }
  }

  lemma FollowsLast(e: Exchange, mid: Exchange, e': Exchange, x: Id, tasks: map<Id, Task>, tasks1: map<Id, Task>,
                    ids: set<Id>, more: set<Id>, failed: set<Id>, failed': set<Id>, now: int)
    requires if IsNamed(tasks, ids, x) then FollowsOne(e, mid, x, tasks, ids, failed, now) else mid == e
    requires if IsNamed(tasks1, more, x) then FollowsOne(mid, e', x, tasks1, more, failed', now) else e' == mid
    requires forall a :: a in more ==> a in tasks1 && a in tasks && tasks1[a] == tasks[a]
    requires failed <= ids && failed' <= more && ids !! more
    ensures if IsNamed(tasks, ids + more, x) then FollowsOne(e, e', x, tasks, ids + more, failed + failed', now)
      else e' == e
  {
    if IsNamed(tasks1, more, x) {
      var a :| a in more && a in tasks1 && tasks1[a].exchangeId == Some(x)
        && e' == Mirrored(mid, a, tasks1[a], now).(status := if a in failed' then ExchangeFailed else ExchangeQueued);
      assert Mirrored(mid, a, tasks[a], now).(status := ExchangeQueued)
        == Mirrored(e, a, tasks[a], now).(status := ExchangeQueued);
      assert e' == Mirrored(e, a, tasks[a], now).(
        status := if a in failed + failed' then ExchangeFailed else ExchangeQueued);
    } else if IsNamed(tasks, ids, x) {
      var a :| a in ids && a in tasks && tasks[a].exchangeId == Some(x)
        && mid == Mirrored(e, a, tasks[a], now).(status := if a in failed then ExchangeFailed else ExchangeQueued);
      assert e' == Mirrored(e, a, tasks[a], now).(
        status := if a in failed + failed' then ExchangeFailed else ExchangeQueued);
    }
  }

  /** The exchange status that a command brings about; a heartbeat brings none. */
  function StatusAfter(c: Command): Option<ExchangeStatus> {
    match c
    case Claim(_, _) => Some(ExchangeRunning)
    case Start(_) => Some(ExchangeRunning)
    case Heartbeat(_) => None
    case Complete(_, _, _) => Some(ExchangeCompleted)
    case Fail(_, _) => Some(ExchangeFailed)
    case Approve(_, _) => Some(ExchangeQueued)
    case Reassign(_, _, _) => Some(ExchangeQueued)
  }

  /** The exchanges after a command: the one of a changed task follows it. */
  function ExchangesAfter(exchanges: map<Id, Exchange>, tasks: map<Id, Task>, id: Id, c: Command, cfg: Config,
                          workers: map<Id, Worker>, now: int): map<Id, Exchange>
  {
    if id !in tasks then exchanges
    else match RunCommand(tasks[id], c, cfg, workers, now)
      case Changed(t, _) =>
        if StatusAfter(c).Some? then Synced(exchanges, id, t, StatusAfter(c), now) else exchanges
      case _ => exchanges
  }
}
