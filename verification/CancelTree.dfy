/** Cancellation fan-out over an arbitrary parent graph: the facts that make the
    recursive walk cancel exactly the reachable tasks. */
module CancelTree {
  import opened Basics
  import opened BrokerTypes
  import opened TaskMachine

  function LiveIds(tasks: map<Id, Task>): (ids: set<Id>)
    ensures ids <= tasks.Keys
  {
    set id | id in tasks && !IsTerminalTask(tasks[id].status)
  }

  /** Every live child of a member is a member. */
  ghost predicate ClosedAt(tasks: map<Id, Task>, ids: set<Id>, parent: Id) {
    forall x :: x in LiveIds(tasks) && tasks[x].parentTaskId == Some(parent) ==> x in ids
  }

  /** The tasks that were live and not canceled are still there, unchanged. */
  lemma SurvivingLive(b0: Book, ids: set<Id>, b1: Book, root: Id, source: Option<Id>, actorId: Id,
                      reason: Option<string>, now: int, x: Id)
    requires ids <= b0.tasks.Keys
    requires IsPruned(CancelAll(b0, ids, root, source, actorId, reason, now), b1)
    ensures x in LiveIds(b1.tasks) <==> x in LiveIds(b0.tasks) && x !in ids
    ensures x in b1.tasks && x !in ids ==> x in b0.tasks && b1.tasks[x] == b0.tasks[x]
  {
    hide TombstoneOf;
    var c1 := CancelAll(b0, ids, root, source, actorId, reason, now);
    if x in LiveIds(b0.tasks) && x !in ids {
      assert IsLive(c1.tasks, x);
    }
  }

  lemma ComposeTasks(b0: Book, ids: set<Id>, b1: Book, more: set<Id>, b2: Book, root: Id, source: Option<Id>,
                     child: Id, actorId: Id, reason: Option<string>, now: int)
    requires ids <= b0.tasks.Keys && more <= b1.tasks.Keys && more <= b0.tasks.Keys && ids !! more
    requires root in ids && child in more
    requires IsPruned(CancelAll(b0, ids, root, source, actorId, reason, now), b1)
    requires b1.tasks[child].parentTaskId == Some(root)
    requires IsPruned(CancelAll(b1, more, child, Some(root), actorId, reason, now), b2)
    ensures b2.tasks == Restrict(CanceledTasks(b0.tasks, ids + more, root, source, actorId, reason, now), b2.tasks.Keys)
    ensures b2.tasks.Keys <= b0.tasks.Keys
  {
    hide CanceledTombstones, CanceledTrail, CanceledTask;
    var c1 := CanceledTasks(b0.tasks, ids, root, source, actorId, reason, now);
    var c2 := CanceledTasks(b1.tasks, more, child, Some(root), actorId, reason, now);
    var c := CanceledTasks(b0.tasks, ids + more, root, source, actorId, reason, now);
    forall x | x in b2.tasks ensures x in c && b2.tasks[x] == c[x] {
      assert b2.tasks[x] == c2[x];
      assert b1.tasks[x] == c1[x];
    }
  }

  lemma ComposeTrails(trail: map<Id, seq<AuditAction>>, ids: set<Id>, more: set<Id>)
    requires ids !! more
    ensures CanceledTrail(CanceledTrail(trail, ids), more) == CanceledTrail(trail, ids + more)
  {
  }

  lemma ComposeTombstones(b0: Book, ids: set<Id>, b1: Book, more: set<Id>, root: Id, source: Option<Id>,
                          child: Id, actorId: Id, reason: Option<string>, now: int)
    requires ids <= b0.tasks.Keys && more <= b1.tasks.Keys && more <= b0.tasks.Keys && ids !! more
    requires forall x :: x in more ==> b1.tasks[x] == b0.tasks[x]
    requires root in ids && child in more && b1.tasks[child].parentTaskId == Some(root)
    requires b1.tombstones == CanceledTombstones(b0, ids, root, source, actorId, reason, now)
    ensures CanceledTombstones(b1, more, child, Some(root), actorId, reason, now)
         == CanceledTombstones(b0, ids + more, root, source, actorId, reason, now)
  {
    hide TombstoneOf, CanceledTask;
  }

  /** Canceling one set and then, after some pruning, another one is canceling their union. */
  lemma ComposeCancels(b0: Book, ids: set<Id>, b1: Book, more: set<Id>, b2: Book, root: Id, source: Option<Id>,
                       child: Id, actorId: Id, reason: Option<string>, now: int)
    requires ids <= LiveIds(b0.tasks) && more <= LiveIds(b1.tasks) && root in ids && child in more
    requires IsPruned(CancelAll(b0, ids, root, source, actorId, reason, now), b1)
    requires b1.tasks[child].parentTaskId == Some(root)
    requires IsPruned(CancelAll(b1, more, child, Some(root), actorId, reason, now), b2)
    ensures ids + more <= LiveIds(b0.tasks)
    ensures IsPruned(CancelAll(b0, ids + more, root, source, actorId, reason, now), b2)
  {
    hide CanceledTasks, CanceledTombstones, CanceledTrail, Restrict, LiveIds;
    forall x | x in more ensures x in LiveIds(b0.tasks) && x !in ids && b1.tasks[x] == b0.tasks[x] {
      SurvivingLive(b0, ids, b1, root, source, actorId, reason, now, x);
    }
    ComposeTasks(b0, ids, b1, more, b2, root, source, child, actorId, reason, now);
    var c := CancelAll(b0, ids + more, root, source, actorId, reason, now);
    ComposeTrails(b0.trail, ids, more);
    ComposeTombstones(b0, ids, b1, more, root, source, child, actorId, reason, now);
    forall x | IsLive(c.tasks, x) ensures x in b2.tasks {
      LiveAfterCancel(b0.tasks, ids + more, root, source, actorId, reason, now, x);
      SurvivingLive(b0, ids, b1, root, source, actorId, reason, now, x);
      SurvivingLive(b1, more, b2, child, Some(root), actorId, reason, now, x);
    }
  }

  lemma LiveAfterCancel(tasks: map<Id, Task>, ids: set<Id>, root: Id, source: Option<Id>, actorId: Id,
                        reason: Option<string>, now: int, x: Id)
    ensures IsLive(CanceledTasks(tasks, ids, root, source, actorId, reason, now), x)
      ==> x in LiveIds(tasks) && x !in ids
  {
  }

  /** A walk after some cancellations is a walk before them. */
  lemma ReachesFromChild(b0: Book, ids: set<Id>, b1: Book, root: Id, source: Option<Id>, child: Id, x: Id,
                         actorId: Id, reason: Option<string>, now: int)
    requires ids <= LiveIds(b0.tasks) && root in ids
    requires IsPruned(CancelAll(b0, ids, root, source, actorId, reason, now), b1)
    requires child in b0.tasks && b0.tasks[child].parentTaskId == Some(root)
    requires Reaches(b1.tasks, child, x)
    ensures Reaches(b0.tasks, root, x)
  {
    hide CancelAll, IsPruned;
    SurvivorsOf(b0, ids, b1, root, source, actorId, reason, now);
    var p :| IsChildPath(b1.tasks, p) && p[0] == child && p[|p| - 1] == x;
    ExtendedPath(b0.tasks, b1.tasks, root, p);
    assert ([root] + p)[|p|] == x;
  }

  lemma ExtendedPath(tasks: map<Id, Task>, survivors: map<Id, Task>, root: Id, p: seq<Id>)
    requires forall x :: x in LiveIds(survivors) ==> x in LiveIds(tasks) && survivors[x] == tasks[x]
    requires IsChildPath(survivors, p) && IsLive(tasks, root)
    requires p[0] in tasks && tasks[p[0]].parentTaskId == Some(root)
    ensures IsChildPath(tasks, [root] + p)
  {
    forall i | 0 <= i < |p| ensures IsLive(tasks, p[i]) && tasks[p[i]] == survivors[p[i]] {
      assert IsLive(survivors, p[i]) && p[i] in LiveIds(survivors);
    }
  }

  /** A live, closed and reachable set that contains the root is the cancel set. */
  lemma ClosedIsCancelSet(tasks: map<Id, Task>, root: Id, ids: set<Id>)
    requires root in ids && ids <= LiveIds(tasks)
    requires forall x :: x in ids ==> Reaches(tasks, root, x)
    requires forall c :: c in ids ==> ClosedAt(tasks, ids, c)
    ensures ids == CancelSet(tasks, root)
  {
    forall x | x in CancelSet(tasks, root) ensures x in ids {
      var p :| IsChildPath(tasks, p) && p[0] == root && p[|p| - 1] == x;
      PathStaysInside(tasks, root, ids, p);
    }
  }

  lemma {:induction false} PathStaysInside(tasks: map<Id, Task>, root: Id, ids: set<Id>, p: seq<Id>)
    requires root in ids && IsChildPath(tasks, p) && p[0] == root
    requires forall c :: c in ids ==> ClosedAt(tasks, ids, c)
    ensures p[|p| - 1] in ids
    decreases |p|
  {
    if |p| > 1 {
      var q := p[..|p| - 1];
      assert IsChildPath(tasks, q) by {
        forall i | 0 <= i < |q| ensures IsLive(tasks, q[i]) { assert q[i] == p[i]; }
      }
      PathStaysInside(tasks, root, ids, q);
      assert IsLive(tasks, p[|p| - 1]) && ClosedAt(tasks, ids, p[|p| - 2]);
    }
  }

  // ----- steps of the recursive walk -----

  lemma ReachesItself(tasks: map<Id, Task>, root: Id)
    requires root in LiveIds(tasks)
    ensures Reaches(tasks, root, root)
  {
    assert IsChildPath(tasks, [root]);
  }

  /** One task canceled, seen as a set. */
  lemma CancelOne(b0: Book, id: Id, source: Option<Id>, actorId: Id, reason: Option<string>, now: int)
    requires id in b0.tasks
    ensures CancelAll(b0, {id}, id, source, actorId, reason, now)
      == Bury(Commit(b0, id, CanceledTask(b0.tasks[id], actorId, reason, source, now), [TaskCanceled]), id,
              TombCanceled, now)
  {
    hide TombstoneOf, CanceledTask, CanceledTrail, CanceledTombstones;
    CancelOneTrail(b0, id);
    CancelOneTombstone(b0, id, source, actorId, reason, now);
  }

  lemma CancelOneTrail(b0: Book, id: Id)
    ensures CanceledTrail(b0.trail, {id}) ==
      b0.trail[id := TrailOf(b0, id) + [TaskCanceled]][id := TrailOf(b0, id) + [TaskCanceled] + [TaskTombstoned]]
  {
    assert TrailOf(b0, id) + [TaskCanceled] + [TaskTombstoned] == TrailOf(b0, id) + [TaskCanceled, TaskTombstoned];
  }

  lemma CancelOneTombstone(b0: Book, id: Id, source: Option<Id>, actorId: Id, reason: Option<string>, now: int)
    requires id in b0.tasks
    ensures CanceledTombstones(b0, {id}, id, source, actorId, reason, now) ==
      b0.tombstones[id := TombstoneOf(CanceledTask(b0.tasks[id], actorId, reason, source, now), TombCanceled, now)]
  {
    hide TombstoneOf, CanceledTask;
  }

  lemma SurvivorsOf(b0: Book, ids: set<Id>, b1: Book, root: Id, source: Option<Id>, actorId: Id,
                    reason: Option<string>, now: int)
    requires ids <= LiveIds(b0.tasks)
    requires IsPruned(CancelAll(b0, ids, root, source, actorId, reason, now), b1)
    ensures LiveIds(b1.tasks) == LiveIds(b0.tasks) - ids
    ensures forall x :: x in LiveIds(b1.tasks) ==> b1.tasks[x] == b0.tasks[x]
  {
    forall x ensures (x in LiveIds(b1.tasks) <==> x in LiveIds(b0.tasks) && x !in ids)
      && (x in b1.tasks && x !in ids ==> x in b0.tasks && b1.tasks[x] == b0.tasks[x])
    {
      SurvivingLive(b0, ids, b1, root, source, actorId, reason, now, x);
    }
  }

  /** After the root is canceled, its live children are still listed. */
  lemma ChildrenAfterCancel(b0: Book, b1: Book, root: Id, source: Option<Id>, actorId: Id, reason: Option<string>,
                            now: int)
    requires root in LiveIds(b0.tasks)
    requires IsPruned(CancelAll(b0, {root}, root, source, actorId, reason, now), b1)
    ensures var listed := set x | x in b1.tasks && b1.tasks[x].parentTaskId == Some(root);
      forall x :: x in LiveIds(b0.tasks) && x != root ==> (x in listed <==> b0.tasks[x].parentTaskId == Some(root))
    ensures forall x ::
      (x in b1.tasks && x in LiveIds(b0.tasks) && b1.tasks[x].parentTaskId == Some(root)
       ==> b0.tasks[x].parentTaskId == Some(root))
  {
    hide CanceledTombstones, CanceledTrail;
    SurvivorsOf(b0, {root}, b1, root, source, actorId, reason, now);
  }

  lemma ChildSetIsClosed(b0: Book, ids: set<Id>, b1: Book, more: set<Id>, root: Id, source: Option<Id>,
                         child: Id, actorId: Id, reason: Option<string>, now: int)
    requires root in ids && ids <= LiveIds(b0.tasks) && child in LiveIds(b1.tasks)
    requires IsPruned(CancelAll(b0, ids, root, source, actorId, reason, now), b1)
    requires child in b0.tasks && b0.tasks[child].parentTaskId == Some(root)
    requires more == CancelSet(b1.tasks, child)
    ensures forall x :: x in more ==> Reaches(b0.tasks, root, x)
    ensures forall c :: c in more ==> ClosedAt(b0.tasks, ids + more, c)
  {
    SurvivorsOf(b0, ids, b1, root, source, actorId, reason, now);
    forall x | x in more ensures Reaches(b0.tasks, root, x) {
      ReachesFromChild(b0, ids, b1, root, source, child, x, actorId, reason, now);
    }
    forall c | c in more ensures ClosedAt(b0.tasks, ids + more, c) {
      CancelSetClosed(b1.tasks, child, c);
      forall x | x in LiveIds(b0.tasks) && b0.tasks[x].parentTaskId == Some(c) ensures x in ids + more {
        if x !in ids {
          assert x in LiveIds(b1.tasks) && b1.tasks[x].parentTaskId == Some(c);
        }
      }
    }
  }

  lemma CancelSetClosed(tasks: map<Id, Task>, root: Id, c: Id)
    requires c in CancelSet(tasks, root)
    ensures ClosedAt(tasks, CancelSet(tasks, root), c)
  {
    var p :| IsChildPath(tasks, p) && p[0] == root && p[|p| - 1] == c;
    forall x | x in LiveIds(tasks) && tasks[x].parentTaskId == Some(c) ensures x in CancelSet(tasks, root) {
      var q := p + [x];
      assert IsChildPath(tasks, q) by {
        forall i | 0 <= i < |q| ensures IsLive(tasks, q[i]) { if i < |p| { assert q[i] == p[i]; } }
      }
    }
  }

  /** How far the walk below a canceled root is: `rest` holds the children still to visit. */
  ghost predicate WalkInv(tasks: map<Id, Task>, root: Id, ids: set<Id>, rest: set<Id>) {
    && root in ids && ids <= LiveIds(tasks)
    && (forall x :: x in ids ==> Reaches(tasks, root, x))
    && (forall c :: c in ids && c != root ==> ClosedAt(tasks, ids, c))
    && (forall x :: x in LiveIds(tasks) && tasks[x].parentTaskId == Some(root) ==> x in ids || x in rest)
    && (forall x :: x in rest && x in LiveIds(tasks) ==> tasks[x].parentTaskId == Some(root))
  }

  lemma WalkStarts(b0: Book, b1: Book, root: Id, source: Option<Id>, actorId: Id, reason: Option<string>, now: int)
    requires root in LiveIds(b0.tasks)
    requires IsPruned(CancelAll(b0, {root}, root, source, actorId, reason, now), b1)
    ensures WalkInv(b0.tasks, root, {root}, set x | x in b1.tasks && b1.tasks[x].parentTaskId == Some(root))
  {
    hide CancelAll, IsPruned, Reaches;
    ReachesItself(b0.tasks, root);
    ChildrenAfterCancel(b0, b1, root, source, actorId, reason, now);
  }

  lemma ChildOfRoot(b0: Book, ids: set<Id>, b1: Book, root: Id, rest: set<Id>, child: Id)
    requires WalkInv(b0.tasks, root, ids, rest) && child in rest && child in LiveIds(b1.tasks)
    requires LiveIds(b1.tasks) == LiveIds(b0.tasks) - ids
    requires forall x :: x in LiveIds(b1.tasks) ==> b1.tasks[x] == b0.tasks[x]
    ensures child in b0.tasks && child !in ids
    ensures b1.tasks[child].parentTaskId == b0.tasks[child].parentTaskId == Some(root)
  {
    hide Reaches, ClosedAt;
  }

  lemma WalkSkips(b0: Book, ids: set<Id>, b1: Book, root: Id, rest: set<Id>, child: Id)
    requires WalkInv(b0.tasks, root, ids, rest) && child !in LiveIds(b1.tasks)
    requires LiveIds(b1.tasks) == LiveIds(b0.tasks) - ids
    ensures WalkInv(b0.tasks, root, ids, rest - {child})
  {
    hide Reaches, ClosedAt;
  }

  lemma WalkGoesOn(b0: Book, ids: set<Id>, b1: Book, more: set<Id>, root: Id, source: Option<Id>, child: Id,
                   rest: set<Id>, actorId: Id, reason: Option<string>, now: int)
    requires WalkInv(b0.tasks, root, ids, rest) && child in LiveIds(b1.tasks)
    requires IsPruned(CancelAll(b0, ids, root, source, actorId, reason, now), b1)
    requires child in b0.tasks && b0.tasks[child].parentTaskId == Some(root)
    requires more == CancelSet(b1.tasks, child) && child in more && ids + more <= LiveIds(b0.tasks)
    ensures WalkInv(b0.tasks, root, ids + more, rest - {child})
  {
    hide CancelAll, IsPruned, Reaches, CancelSet, ClosedAt;
    ChildSetIsClosed(b0, ids, b1, more, root, source, child, actorId, reason, now);
    forall c | c in ids && c != root ensures ClosedAt(b0.tasks, ids + more, c) {
      ClosedInMore(b0.tasks, ids, more, c);
    }
  }

  lemma ClosedInMore(tasks: map<Id, Task>, ids: set<Id>, more: set<Id>, c: Id)
    requires ClosedAt(tasks, ids, c)
    ensures ClosedAt(tasks, ids + more, c)
  {
  }

  lemma WalkEnds(tasks: map<Id, Task>, root: Id, ids: set<Id>)
    requires WalkInv(tasks, root, ids, {})
    ensures ids == CancelSet(tasks, root)
  {
    hide Reaches, CancelSet;
    ClosedIsCancelSet(tasks, root, ids);
  }

  // ----- what a cancellation leaves behind -----

  lemma ParentIsCanceledToo(tasks: map<Id, Task>, root: Id, id: Id)
    requires id in CancelSet(tasks, root) && id != root
    ensures tasks[id].parentTaskId.Some?
    ensures IsLive(tasks, tasks[id].parentTaskId.value) && tasks[id].parentTaskId.value in CancelSet(tasks, root)
  {
    var p :| IsChildPath(tasks, p) && p[0] == root && p[|p| - 1] == id;
    var q := p[..|p| - 1];
    assert IsChildPath(tasks, q) by {
      forall i | 0 <= i < |q| ensures IsLive(tasks, q[i]) { assert q[i] == p[i]; }
    }
    assert IsLive(tasks, p[|p| - 2]) && p[|p| - 2] == q[|q| - 1];
  }

  /** Each canceled descendant names its own parent as the source, and that
      parent was canceled by the same call. */
  lemma FanOutSources(b: Book, root: Id, actorId: Id, reason: Option<string>, now: int, id: Id)
    requires IsLive(b.tasks, root) && id in CancelSet(b.tasks, root) && id != root
    ensures var after := TaskMachine.CancelTree(b, root, actorId, reason, now).tasks;
      && id in after && after[id].status == Canceled && after[id].cancellation.Some?
      && after[id].cancellation.value.sourceTaskId == b.tasks[id].parentTaskId
      && b.tasks[id].parentTaskId.Some?
      && b.tasks[id].parentTaskId.value in CancelSet(b.tasks, root)
  {
    ParentIsCanceledToo(b.tasks, root, id);
  }

  /** A walk along child edges through tasks of any status. */
  ghost predicate IsLineage(tasks: map<Id, Task>, p: seq<Id>) {
    p != []
    && (forall i :: 0 <= i < |p| ==> p[i] in tasks)
    && (forall i :: 1 <= i < |p| ==> tasks[p[i]].parentTaskId == Some(p[i - 1]))
  }

  ghost predicate Descends(tasks: map<Id, Task>, root: Id, id: Id) {
    exists p :: IsLineage(tasks, p) && p[0] == root && p[|p| - 1] == id
  }

  /** A terminal descendant still has a live child. */
  ghost predicate CutsOff(tasks: map<Id, Task>, root: Id, dead: Id, child: Id) {
    Descends(tasks, root, dead) && dead in tasks && IsTerminalTask(tasks[dead].status)
    && IsLive(tasks, child) && tasks[child].parentTaskId == Some(dead) && child != root
  }

  /** "Every non-terminal descendant" is canceled exactly when no terminal
      descendant still has a live child: the fan-out stops at terminal tasks. */
  lemma DocumentedFanOut(tasks: map<Id, Task>, root: Id)
    requires IsLive(tasks, root)
    ensures (forall x :: IsLive(tasks, x) && Descends(tasks, root, x) ==> x in CancelSet(tasks, root))
      <==> !exists dead, child :: CutsOff(tasks, root, dead, child)
  {
    if dead, child :| CutsOff(tasks, root, dead, child) {
      var p :| IsLineage(tasks, p) && p[0] == root && p[|p| - 1] == dead;
      assert IsLineage(tasks, p + [child]) && (p + [child])[|p|] == child;
      if child in CancelSet(tasks, root) {
        ParentIsCanceledToo(tasks, root, child);
      }
    } else {
      forall x | IsLive(tasks, x) && Descends(tasks, root, x) ensures x in CancelSet(tasks, root) {
        var p :| IsLineage(tasks, p) && p[0] == root && p[|p| - 1] == x;
        LineageIsLive(tasks, root, p);
      }
    }
  }

  lemma {:induction false} LineageIsLive(tasks: map<Id, Task>, root: Id, p: seq<Id>)
    requires IsLive(tasks, root) && IsLineage(tasks, p) && p[0] == root && IsLive(tasks, p[|p| - 1])
    requires forall dead, child :: !CutsOff(tasks, root, dead, child)
    ensures p[|p| - 1] in CancelSet(tasks, root)
    decreases |p|
  {
    CancelSetIsLive(tasks, root);
    if |p| > 1 && p[|p| - 1] != root {
      var q := p[..|p| - 1];
      assert IsLineage(tasks, q) && q[|q| - 1] == p[|p| - 2];
      assert !CutsOff(tasks, root, p[|p| - 2], p[|p| - 1]);
      LineageIsLive(tasks, root, q);
      CancelSetClosed(tasks, root, p[|p| - 2]);
    }
  }

  /** The case the documentation overlooks: a live task below a finished one. */
  lemma FanOutMissesGrandchild(task: Task)
    ensures var tasks := map[
        1 := task.(status := Running, parentTaskId := None),
        2 := task.(status := Succeeded, parentTaskId := Some(1)),
        3 := task.(status := Running, parentTaskId := Some(2))];
      Descends(tasks, 1, 3) && IsLive(tasks, 3) && 3 !in CancelSet(tasks, 1)
  {
    var tasks := map[
      1 := task.(status := Running, parentTaskId := None),
      2 := task.(status := Succeeded, parentTaskId := Some(1)),
      3 := task.(status := Running, parentTaskId := Some(2))];
    assert IsLineage(tasks, [1, 2, 3]) && [1, 2, 3][2] == 3;
    if 3 in CancelSet(tasks, 1) {
      ParentIsCanceledToo(tasks, 1, 3);
    }
  }
}
