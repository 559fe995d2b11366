/** The bounded replay buffer shared by the protocol managers, and the projection
    of a manager's full event log on one of its entities. */
module EventBuffer {
  import opened Basics

  datatype Event<+P> = Event(id: int, payload: P)

  /** An entity, and what all its events said. */
  datatype Trace<+E, +K> = Trace(entity: E, history: seq<K>)

  /** The state after a sequence of calls, each with its time. */
  function RunAll<S, O>(step: (S, O, int) -> S, start: S, calls: seq<(O, int)>): S {
    if calls == [] then start
    else
      var last := calls[|calls| - 1];
      step(RunAll(step, start, calls[..|calls| - 1]), last.0, last.1)
  }

  lemma RunOne<S, O>(step: (S, O, int) -> S, start: S, call: (O, int))
    ensures RunAll(step, start, [call]) == step(start, call.0, call.1)
  {
    assert [call][..0] == [];
    assert RunAll(step, start, [call][..0]) == start;
  }

  /** The last `n` elements. */
  function Suffix<T>(s: seq<T>, n: nat): seq<T> {
    if |s| <= n then s else s[|s| - n..]
  }

  /** The retained events a subscriber may see, in order. */
  function Visible<P(!new)>(events: seq<Event<P>>, cursor: int, matches: Event<P> -> bool): (seen: seq<Event<P>>)
    ensures forall e :: e in seen ==> e in events && e.id > cursor && matches(e)
    ensures |seen| <= |events|
  {
    if events == [] then []
    else if events[0].id > cursor && matches(events[0]) then [events[0]] + Visible(events[1..], cursor, matches)
    else Visible(events[1..], cursor, matches)
  }

  /** A limit caps the page, but a page is cut only after an event was added: a
      limit of zero or less still yields one event. */
  function Page<P(!new)>(events: seq<Event<P>>, cursor: int, limit: Option<int>, matches: Event<P> -> bool)
    : (page: seq<Event<P>>)
  {
    Capped(Visible(events, cursor, matches), limit)
  }

  function Capped<T>(seen: seq<T>, limit: Option<int>): seq<T> {
    var cap := if limit.None? then |seen| else if limit.value < 1 then 1 else limit.value;
    if cap < |seen| then seen[..cap] else seen
  }

  ghost predicate Increasing<P>(events: seq<Event<P>>) {
    forall i, j :: 0 <= i < j < |events| ==> events[i].id < events[j].id
  }

  /** Every event carries its position in the log as its id. */
  ghost predicate Dense<P>(log: seq<Event<P>>) {
    forall i :: 0 <= i < |log| ==> log[i].id == i + 1
  }

  /** The loop of a subscription: `page` has taken over what is visible before `i`. */
  lemma VisibleStep<P(!new)>(events: seq<Event<P>>, i: nat, cursor: int, matches: Event<P> -> bool, page: seq<Event<P>>)
    requires i < |events|
    ensures page + Visible(events[i..], cursor, matches)
      == (if events[i].id > cursor && matches(events[i]) then page + [events[i]] else page)
         + Visible(events[i + 1..], cursor, matches)
  {
    assert events[i..][1..] == events[i + 1..];
  }

  lemma VisibleEnd<P(!new)>(events: seq<Event<P>>, cursor: int, matches: Event<P> -> bool, page: seq<Event<P>>)
    ensures page + Visible(events[|events|..], cursor, matches) == page
  {
  }

  /** Where a page ends. */
  lemma PageIsFull<T>(page: seq<T>, rest: seq<T>, limit: int)
    requires page != [] && |page| >= limit && (|page| > 1 ==> |page| - 1 < limit)
    ensures Capped(page + rest, Some(limit)) == page
  {
  }

  lemma PageIsOpen<T>(page: seq<T>, limit: Option<int>)
    requires limit.Some? && page != [] ==> |page| < limit.value
    ensures Capped(page, limit) == page
  {
  }

  class CursorEventBuffer<P(!new)> {
    const maxEvents: nat
    var events: seq<Event<P>>
    var nextId: int
    /** Everything ever pushed, eviction notwithstanding. */
    ghost var pushed: seq<Event<P>>

    ghost predicate Valid()
      reads this
    {
      events == Suffix(pushed, maxEvents)
    }

    constructor (maxEvents: nat)
      ensures Valid() && pushed == [] && nextId == 0 && this.maxEvents == maxEvents
    {
      this.maxEvents := maxEvents;
      events, nextId, pushed := [], 0, [];
    }

    method AllocateId() returns (id: int)
      requires Valid()
      modifies this`nextId
      ensures Valid() && id == nextId == old(nextId) + 1
    {
      nextId := nextId + 1;
      id := nextId;
    }

    method Push(event: Event<P>)
      requires Valid()
      modifies this`events, this`pushed
      ensures Valid() && pushed == old(pushed) + [event]
    {
      events := events + [event];
      if |events| > maxEvents {
        events := events[|events| - maxEvents..];
      }
      pushed := pushed + [event];
    }

    method Subscribe(afterId: Option<int>, limit: Option<int>, matches: Event<P> -> bool)
      returns (result: seq<Event<P>>)
      requires Valid()
      ensures result == Page(events, afterId.GetOr(0), limit, matches)
    {
      hide Visible, Capped;
      var cursor := afterId.GetOr(0);
      ghost var seen := Visible(events, cursor, matches);
      result := [];
      assert events[0..] == events;
      for i := 0 to |events|
        invariant seen == result + Visible(events[i..], cursor, matches)
        invariant limit.Some? && result != [] ==> |result| < limit.value
      {
        VisibleStep(events, i, cursor, matches, result);
        var event := events[i];
        if event.id <= cursor || !matches(event) {
          continue;
        }
        result := result + [event];
        if limit.Some? && |result| >= limit.value {
          PageIsFull(result, Visible(events[i + 1..], cursor, matches), limit.value);
          return;
        }
      }
      VisibleEnd(events, cursor, matches, result);
      PageIsOpen(result, limit);
    }
  }

  /** Retained ids are consecutive and end at the latest one. */
  lemma RetainedIdsAreConsecutive<P>(log: seq<Event<P>>, maxEvents: nat)
    requires Dense(log)
    ensures var kept := Suffix(log, maxEvents);
      Increasing(kept)
      && |kept| == (if |log| <= maxEvents then |log| else maxEvents)
      && forall i :: 0 <= i < |kept| ==> kept[i].id == |log| - |kept| + 1 + i
  {
  }

  lemma {:induction false} VisibleAfterEarlier<P(!new)>(events: seq<Event<P>>, cursor: int, later: int,
                                                        matches: Event<P> -> bool)
    requires Increasing(events) && cursor <= later
    ensures Visible(Visible(events, cursor, matches), later, matches) == Visible(events, later, matches)
    decreases |events|
  {
    if events != [] {
      VisibleAfterEarlier(events[1..], cursor, later, matches);
      if events[0].id > cursor && matches(events[0]) {
        assert ([events[0]] + Visible(events[1..], cursor, matches))[1..] == Visible(events[1..], cursor, matches);
      }
    }
  }

  lemma {:induction false} VisibleIncreasing<P(!new)>(events: seq<Event<P>>, cursor: int, matches: Event<P> -> bool)
    requires Increasing(events)
    ensures Increasing(Visible(events, cursor, matches))
    decreases |events|
  {
    if events != [] {
      VisibleIncreasing(events[1..], cursor, matches);
      var tail := Visible(events[1..], cursor, matches);
      forall e | e in tail ensures events[0].id < e.id {
        assert e in events[1..];
      }
      IncreasingAfter(events[0], tail);
    }
  }

  lemma IncreasingAfter<P>(first: Event<P>, tail: seq<Event<P>>)
    requires Increasing(tail) && forall e :: e in tail ==> first.id < e.id
    ensures Increasing([first] + tail)
  {
    assert forall i :: 0 < i < |[first] + tail| ==> ([first] + tail)[i] == tail[i - 1];
  }

  /** Moving the cursor to a visible event skips exactly that event and those before it. */
  lemma {:induction false} CursorSplits<P(!new)>(seen: seq<Event<P>>, n: nat, matches: Event<P> -> bool)
    requires Increasing(seen) && 0 < n <= |seen|
    requires forall e :: e in seen ==> matches(e)
    ensures Visible(seen, seen[n - 1].id, matches) == seen[n..]
    decreases |seen|
  {
    if n == 1 {
      AllVisible(seen[1..], seen[0].id, matches);
    } else {
      assert seen[1..][n - 2] == seen[n - 1];
      CursorSplits(seen[1..], n - 1, matches);
      assert seen[1..][n - 1..] == seen[n..];
    }
  }

  lemma {:induction false} AllVisible<P(!new)>(seen: seq<Event<P>>, cursor: int, matches: Event<P> -> bool)
    requires forall i :: 0 <= i < |seen| ==> seen[i].id > cursor && matches(seen[i])
    ensures Visible(seen, cursor, matches) == seen
    decreases |seen|
  {
    if seen != [] {
      AllVisible(seen[1..], cursor, matches);
    }
  }

  /** Reading page after page, each time from the last id received. */
  ghost function Pages<P(!new)>(events: seq<Event<P>>, cursor: int, limit: int, matches: Event<P> -> bool)
    : (all: seq<Event<P>>)
    requires Increasing(events)
    decreases |Visible(events, cursor, matches)|
  {
    var page := Page(events, cursor, Some(limit), matches);
    if page == [] then []
    else
      NextPage(events, cursor, limit, matches);
      page + Pages(events, page[|page| - 1].id, limit, matches)
  }

  lemma NextPage<P(!new)>(events: seq<Event<P>>, cursor: int, limit: int, matches: Event<P> -> bool)
    requires Increasing(events) && Page(events, cursor, Some(limit), matches) != []
    ensures var page := Page(events, cursor, Some(limit), matches);
      Visible(events, page[|page| - 1].id, matches) == Visible(events, cursor, matches)[|page|..]
  {
    var seen := Visible(events, cursor, matches);
    var page := Page(events, cursor, Some(limit), matches);
    VisibleIncreasing(events, cursor, matches);
    CursorSplits(seen, |page|, matches);
    assert seen[|page| - 1] == page[|page| - 1];
    assert page[|page| - 1] in seen;
    VisibleAfterEarlier(events, cursor, page[|page| - 1].id, matches);
  }

  /** Paging by the last id yields each retained matching event once, in order,
      whatever the limit. */
  lemma {:induction false} PagingIsComplete<P(!new)>(events: seq<Event<P>>, cursor: int, limit: int,
                                                     matches: Event<P> -> bool)
    requires Increasing(events)
    ensures Pages(events, cursor, limit, matches) == Visible(events, cursor, matches)
    decreases |Visible(events, cursor, matches)|
  {
    hide Visible;
    var page := Page(events, cursor, Some(limit), matches);
    var seen := Visible(events, cursor, matches);
    if page != [] {
      NextPage(events, cursor, limit, matches);
      assert page + seen[|page|..] == seen;
      PagingIsComplete(events, page[|page| - 1].id, limit, matches);
    }
  }

  // ----- one entity's part of a log -----

  /** The kinds of the events of one entity, oldest first. */
  function History<P, K>(log: seq<Event<P>>, entity: P -> Id, kind: P -> K, id: Id): seq<K> {
    if log == [] then []
    else
      var last := log[|log| - 1].payload;
      History(log[..|log| - 1], entity, kind, id) + if entity(last) == id then [kind(last)] else []
  }

  lemma HistoryAppend<P, K>(log: seq<Event<P>>, e: Event<P>, entity: P -> Id, kind: P -> K, id: Id)
    ensures History(log + [e], entity, kind, id) ==
      if entity(e.payload) == id then History(log, entity, kind, id) + [kind(e.payload)]
      else History(log, entity, kind, id)
  {
    assert (log + [e])[..|log|] == log;
  }

  /** A history that follows a transition table from a start status. */
  ghost predicate IsPath<S(!new)>(table: (S, S) -> bool, start: S, path: seq<S>) {
    path != [] && path[0] == start
    && forall i :: 1 <= i < |path| ==> table(path[i - 1], path[i])
  }

  lemma PathExtends<S(!new)>(table: (S, S) -> bool, start: S, path: seq<S>, next: S)
    requires IsPath(table, start, path) && table(path[|path| - 1], next)
    ensures IsPath(table, start, path + [next])
  {
  }

  function CountOf<S(==)>(path: seq<S>, s: S): nat {
    if path == [] then 0 else CountOf(path[..|path| - 1], s) + if path[|path| - 1] == s then 1 else 0
  }

  lemma CountAppend<S>(path: seq<S>, x: S, s: S)
    ensures CountOf(path + [x], s) == CountOf(path, s) + if x == s then 1 else 0
  {
    assert (path + [x])[..|path|] == path;
  }
}
