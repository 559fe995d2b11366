/** The sliding-window rate limiter, judged against the full history of calls. */
module RateLimiter {
  import opened Basics

  /** The timestamps after `lo`, in their order. */
  function Recent(times: seq<int>, lo: int): (kept: seq<int>)
    ensures |kept| <= |times|
    ensures forall x :: x in kept ==> x > lo && x in times
  {
    if times == [] then []
    else if times[0] > lo then [times[0]] + Recent(times[1..], lo)
    else Recent(times[1..], lo)
  }

  /** The timestamps in the half-open window `(lo, hi]`. */
  function InWindow(times: seq<int>, lo: int, hi: int): nat {
    if times == [] then 0 else InWindow(times[..|times| - 1], lo, hi) + if lo < times[|times| - 1] <= hi then 1 else 0
  }

  type Buckets = map<Id, seq<int>>

  function Bucket(buckets: Buckets, key: Id): seq<int> {
    if key in buckets then buckets[key] else []
  }

  datatype Decision = Decision(
    key: Id, limit: int, remaining: int, resetAtMs: int, retryAfterSec: int, allowed: bool)

  function Ceiling(x: int, d: int): int
    requires d > 0
  {
    -((-x) / d)
  }

  function Max(a: int, b: int): int { if a > b then a else b }

  function Decide(buckets: Buckets, key: Id, now: int, max: int, window: int): bool {
    |Recent(Bucket(buckets, key), now - window)| < max
  }

  function AfterCheck(buckets: Buckets, key: Id, now: int, max: int, window: int): Buckets {
    var kept := Recent(Bucket(buckets, key), now - window);
    buckets[key := if |kept| < max then kept + [now] else kept]
  }

  function AfterSnapshot(buckets: Buckets, now: int, window: int): Buckets {
    map k | k in buckets && Recent(buckets[k], now - window) != [] :: Recent(buckets[k], now - window)
  }

  function DecisionAfter(buckets: Buckets, key: Id, now: int, max: int, window: int): Decision {
    var times := Bucket(AfterCheck(buckets, key, now, max, window), key);
    var earliest := if times != [] then times[0] else now;
    var resetAtMs := earliest + window;
    Decision(key, max, Max(0, max - |times|), resetAtMs, Max(1, Ceiling(resetAtMs - now, 1000)),
             Decide(buckets, key, now, max, window))
  }

  // ----- the busiest keys -----

  datatype Pressure = Pressure(key: Id, inWindow: nat, remaining: int, resetAtMs: int)

  datatype PressureSnapshot = PressureSnapshot(
    limit: int, windowMs: int, activeKeys: nat, allowedRequests: nat, deniedRequests: nat, busiest: seq<Pressure>)

  /** More calls come first; among equals the order of the keys decides. */
  predicate Busier(buckets: Buckets, a: Id, b: Id) {
    var x, y := |Bucket(buckets, a)|, |Bucket(buckets, b)|;
    x > y || (x == y && a < b)
  }

  /** All keys of `among`, the busiest first. */
  ghost predicate Ranks(buckets: Buckets, among: set<Id>, order: seq<Id>) {
    && (forall k :: k in order <==> k in among)
    && (forall i, j :: 0 <= i < j < |order| ==> Busier(buckets, order[i], order[j]))
  }

  /** There is only one ranking. */
  lemma {:induction false} RankingIsUnique(buckets: Buckets, among: set<Id>, x: seq<Id>, y: seq<Id>)
    requires Ranks(buckets, among, x) && Ranks(buckets, among, y)
    ensures x == y
    decreases |x|
  {
    hide Bucket;
    RanksNothing(buckets, among, x);
    RanksNothing(buckets, among, y);
    if x != [] {
      RankHead(buckets, among, x);
      RankHead(buckets, among, y);
      assert x[0] == y[0];
      hide Ranks;
      RankingIsUnique(buckets, among - {x[0]}, x[1..], y[1..]);
      assert x == [x[0]] + x[1..] && y == [y[0]] + y[1..];
    }
  }

  lemma RanksNothing(buckets: Buckets, among: set<Id>, order: seq<Id>)
    requires Ranks(buckets, among, order)
    ensures order == [] <==> among == {}
    ensures forall i :: 0 <= i < |order| ==> order[i] in among
  {
    hide Busier;
    if k :| k in among {
      assert k in order;
    }
    if order != [] {
      assert order[0] in order;
    }
  }

  lemma RankHead(buckets: Buckets, among: set<Id>, order: seq<Id>)
    requires Ranks(buckets, among, order) && order != []
    ensures order[0] in among && Ranks(buckets, among - {order[0]}, order[1..])
    ensures forall k :: k in among && k != order[0] ==> Busier(buckets, order[0], k)
  {
    hide Bucket;
    assert order == [order[0]] + order[1..];
    assert order[0] in order;
    forall k | k in among && k != order[0] ensures Busier(buckets, order[0], k) {
      var i :| 0 <= i < |order| && order[i] == k;
    }
  }

  lemma InsertedBefore(buckets: Buckets, order: seq<Id>, i: nat, k: Id)
    requires i < |order| && order[i] != k && !Busier(buckets, order[i], k)
    requires forall j :: i < j < |order| ==> Busier(buckets, order[i], order[j])
    ensures forall j :: i <= j < |order| ==> Busier(buckets, k, order[j])
  {
    hide Bucket;
  }

  lemma InsertedPairs(buckets: Buckets, order: seq<Id>, i: nat, k: Id)
    requires forall a, b :: 0 <= a < b < |order| ==> Busier(buckets, order[a], order[b])
    requires i <= |order| && (forall j :: 0 <= j < i ==> Busier(buckets, order[j], k))
    requires forall j :: i <= j < |order| ==> Busier(buckets, k, order[j])
    ensures var longer := order[..i] + [k] + order[i..];
      forall a, b :: 0 <= a < b < |longer| ==> Busier(buckets, longer[a], longer[b])
  {
    hide Busier;
    var longer := order[..i] + [k] + order[i..];
    assert forall j :: 0 <= j < i ==> longer[j] == order[j];
    assert forall j :: i < j < |longer| ==> longer[j] == order[j - 1];
  }

  lemma RankInsert(buckets: Buckets, among: set<Id>, order: seq<Id>, i: nat, k: Id)
    requires Ranks(buckets, among, order) && k !in among && i <= |order|
    requires forall j :: 0 <= j < i ==> Busier(buckets, order[j], k)
    requires i < |order| ==> !Busier(buckets, order[i], k)
    ensures Ranks(buckets, among + {k}, order[..i] + [k] + order[i..])
  {
    hide Busier;
    if i < |order| {
      assert order[i] in order;
      InsertedBefore(buckets, order, i, k);
    }
    InsertedPairs(buckets, order, i, k);
    assert order == order[..i] + order[i..];
  }

  lemma RankNone(buckets: Buckets)
    ensures Ranks(buckets, {}, [])
  {
  }

  method RankKeys(buckets: Buckets) returns (order: seq<Id>)
    ensures Ranks(buckets, buckets.Keys, order)
  {
    hide Ranks, Busier;
    order := [];
    RankNone(buckets);
    var rest := buckets.Keys;
    assert buckets.Keys - rest == {};
    while rest != {}
      invariant rest <= buckets.Keys && Ranks(buckets, buckets.Keys - rest, order)
      decreases rest
    {
      var k :| k in rest;
      var i := 0;
      while i < |order| && Busier(buckets, order[i], k)
        invariant i <= |order|
        invariant forall j :: 0 <= j < i ==> Busier(buckets, order[j], k)
      {
        i := i + 1;
      }
      RankInsert(buckets, buckets.Keys - rest, order, i, k);
      assert buckets.Keys - (rest - {k}) == (buckets.Keys - rest) + {k};
      order := order[..i] + [k] + order[i..];
      rest := rest - {k};
    }
    assert buckets.Keys - rest == buckets.Keys;
  }

  /** The first `n` elements; a negative count leaves out as many at the end. */
  function First<T>(s: seq<T>, n: int): seq<T> {
    if n >= |s| then s else if n >= 0 then s[..n] else if -n >= |s| then [] else s[..|s| + n]
  }

  function PressureOf(buckets: Buckets, key: Id, max: int, window: int): Pressure
    requires key in buckets && buckets[key] != []
  {
    Pressure(key, |buckets[key]|, Max(0, max - |buckets[key]|), buckets[key][0] + window)
  }

  class InMemoryRateLimiter {
    const maxRequests: int
    const windowMs: int
    var buckets: Buckets
    var allowedRequests: nat
    var deniedRequests: nat

    constructor (maxRequests: int, windowMs: int)
      ensures buckets == map[] && allowedRequests == deniedRequests == 0
      ensures this.maxRequests == maxRequests && this.windowMs == windowMs
    {
      this.maxRequests, this.windowMs := maxRequests, windowMs;
      buckets, allowedRequests, deniedRequests := map[], 0, 0;
    }

    method Check(key: Id, nowMs: int) returns (d: Decision)
      modifies this
      ensures d == DecisionAfter(old(buckets), key, nowMs, maxRequests, windowMs)
      ensures buckets == AfterCheck(old(buckets), key, nowMs, maxRequests, windowMs)
      ensures allowedRequests == old(allowedRequests) + (if d.allowed then 1 else 0)
      ensures deniedRequests == old(deniedRequests) + (if d.allowed then 0 else 1)
    {
      var windowStart := nowMs - windowMs;
      var timestamps := Recent(Bucket(buckets, key), windowStart);
      var allowed := |timestamps| < maxRequests;
      if allowed {
        timestamps := timestamps + [nowMs];
        allowedRequests := allowedRequests + 1;
      } else {
        deniedRequests := deniedRequests + 1;
      }
      buckets := buckets[key := timestamps];
      var earliest := if timestamps != [] then timestamps[0] else nowMs;
      var resetAtMs := earliest + windowMs;
      d := Decision(key, maxRequests, Max(0, maxRequests - |timestamps|), resetAtMs,
                    Max(1, Ceiling(resetAtMs - nowMs, 1000)), allowed);
    }

    /** Prunes every bucket and deletes the empty ones. */
    method PruneBuckets(nowMs: int)
      modifies this`buckets
      ensures buckets == AfterSnapshot(old(buckets), nowMs, windowMs)
    {
      var windowStart := nowMs - windowMs;
      var rest := buckets.Keys;
      while rest != {}
        invariant rest <= old(buckets).Keys
        invariant forall k :: k in buckets <==>
          k in old(buckets) && (k in rest || Recent(old(buckets)[k], windowStart) != [])
        invariant forall k :: k in buckets ==>
          buckets[k] == if k in rest then old(buckets)[k] else Recent(old(buckets)[k], windowStart)
        decreases rest
      {
        var k :| k in rest;
        var inWindow := Recent(buckets[k], windowStart);
        rest := rest - {k};
        if inWindow == [] {
          buckets := buckets - {k};
        } else {
          buckets := buckets[k := inWindow];
        }
      }
      assert buckets == AfterSnapshot(old(buckets), nowMs, windowMs);
    }

    /** The pressure on the limiter, with the busiest keys first. */
    method Snapshot(nowMs: int, topKeys: int) returns (s: PressureSnapshot, ghost order: seq<Id>)
      modifies this`buckets
      ensures buckets == AfterSnapshot(old(buckets), nowMs, windowMs)
      ensures Ranks(buckets, buckets.Keys, order)
      ensures |s.busiest| == |First(order, topKeys)|
      ensures forall i :: 0 <= i < |s.busiest| ==>
        (order[i] in buckets && buckets[order[i]] != []
         && s.busiest[i] == PressureOf(buckets, order[i], maxRequests, windowMs))
      ensures s == PressureSnapshot(maxRequests, windowMs, |buckets|, allowedRequests, deniedRequests, s.busiest)
    {
      hide Ranks, Recent, PressureOf;
      PruneBuckets(nowMs);
      var ranking := RankKeys(buckets);
      order := ranking;
      RankedAreActive(old(buckets), buckets, ranking, nowMs, windowMs);
      var listed := First(ranking, topKeys);
      var busiest := [];
      for i := 0 to |listed|
        invariant |busiest| == i
        invariant forall j :: 0 <= j < i ==> busiest[j] == PressureOf(buckets, ranking[j], maxRequests, windowMs)
      {
        busiest := busiest + [PressureOf(buckets, ranking[i], maxRequests, windowMs)];
      }
      s := PressureSnapshot(maxRequests, windowMs, |buckets|, allowedRequests, deniedRequests, busiest);
    }
  }

  lemma RankedAreActive(before: Buckets, buckets: Buckets, order: seq<Id>, nowMs: int, windowMs: int)
    requires buckets == AfterSnapshot(before, nowMs, windowMs) && Ranks(buckets, buckets.Keys, order)
    ensures forall i :: 0 <= i < |order| ==> order[i] in buckets && buckets[order[i]] != []
  {
    hide Recent, Ranks;
    RanksNothing(buckets, buckets.Keys, order);
  }

  // ----- whole runs -----

  datatype Call = CheckAt(key: Id, at: int) | SnapshotAt(at: int)

  /** The buckets, and the times of all allowed calls ever made, by key. */
  datatype State = State(buckets: Buckets, granted: Buckets)

  function Next(s: State, c: Call, max: int, window: int): State {
    match c
    case CheckAt(key, at) =>
      State(AfterCheck(s.buckets, key, at, max, window),
            if Decide(s.buckets, key, at, max, window)
            then s.granted[key := Bucket(s.granted, key) + [at]] else s.granted)
    case SnapshotAt(at) => State(AfterSnapshot(s.buckets, at, window), s.granted)
  }

  function Run(calls: seq<Call>, max: int, window: int): State {
    if calls == [] then State(map[], map[])
    else Next(Run(calls[..|calls| - 1], max, window), calls[|calls| - 1], max, window)
  }

  /** The clock never goes back, snapshots included. */
  ghost predicate Monotone(calls: seq<Call>) {
    forall i, j :: 0 <= i < j < |calls| ==> calls[i].at <= calls[j].at
  }

  lemma {:induction false} RecentAppend(times: seq<int>, x: int, lo: int)
    ensures Recent(times + [x], lo) == Recent(times, lo) + if x > lo then [x] else []
    decreases |times|
  {
    if times == [] {
      assert times + [x] == [x];
    } else {
      assert (times + [x])[1..] == times[1..] + [x];
      RecentAppend(times[1..], x, lo);
    }
  }

  lemma {:induction false} RecentTwice(times: seq<int>, lo: int, hi: int)
    requires lo <= hi
    ensures Recent(Recent(times, lo), hi) == Recent(times, hi)
    decreases |times|
  {
    if times != [] {
      RecentTwice(times[1..], lo, hi);
      if times[0] > lo {
        assert Recent(times, lo)[1..] == Recent(times[1..], lo);
      }
    }
  }

  lemma RecentFewer(times: seq<int>, lo: int, hi: int)
    requires lo <= hi
    ensures |Recent(times, hi)| <= |Recent(times, lo)|
  {
    RecentTwice(times, lo, hi);
  }

  lemma {:induction false} WindowIsRecent(times: seq<int>, lo: int, hi: int)
    requires forall x :: x in times ==> x <= hi
    ensures InWindow(times, lo, hi) == |Recent(times, lo)|
    decreases |times|
  {
    if times != [] {
      var front := times[..|times| - 1];
      assert times == front + [times[|times| - 1]];
      assert forall x :: x in front ==> x in times;
      assert times[|times| - 1] in times;
      WindowIsRecent(front, lo, hi);
      RecentAppend(front, times[|times| - 1], lo);
    }
  }

  lemma {:induction false} WindowAtMostRecent(times: seq<int>, lo: int, hi: int)
    ensures InWindow(times, lo, hi) <= |Recent(times, lo)|
    decreases |times|
  {
    if times != [] {
      var front := times[..|times| - 1];
      assert times == front + [times[|times| - 1]];
      WindowAtMostRecent(front, lo, hi);
      RecentAppend(front, times[|times| - 1], lo);
    }
  }

  /** How many calls a window of the given length, starting after `lo`, holds. */
  function Load(times: seq<int>, lo: int, window: int): nat {
    InWindow(times, lo, lo + window)
  }

  /** The bucket of a key holds what its whole history holds in every window that
      still matters, and no window ever held too many calls. */
  ghost predicate KeyInv(bucket: seq<int>, granted: seq<int>, clock: int, max: int, window: int) {
    (forall lo :: lo >= clock - window ==> Recent(bucket, lo) == Recent(granted, lo))
    && (forall x :: x in granted ==> x <= clock)
    && (forall lo :: Load(granted, lo, window) <= Max(0, max))
  }

  lemma KeyInvLater(bucket: seq<int>, granted: seq<int>, clock: int, later: int, max: int, window: int)
    requires KeyInv(bucket, granted, clock, max, window) && clock <= later
    ensures KeyInv(bucket, granted, later, max, window)
    ensures KeyInv(Recent(bucket, later - window), granted, later, max, window)
  {
    hide Recent, Load;
    var kept := Recent(bucket, later - window);
    forall lo | lo >= later - window ensures Recent(kept, lo) == Recent(granted, lo) {
      RecentTwice(bucket, later - window, lo);
    }
  }

  lemma KeyInvGrant(kept: seq<int>, granted: seq<int>, now: int, max: int, window: int)
    requires KeyInv(kept, granted, now, max, window)
    requires kept == Recent(kept, now - window) && |kept| < max
    ensures KeyInv(kept + [now], granted + [now], now, max, window)
  {
    forall lo | lo >= now - window ensures Recent(kept + [now], lo) == Recent(granted + [now], lo) {
      RecentAppend(kept, now, lo);
      RecentAppend(granted, now, lo);
    }
    forall lo ensures Load(granted + [now], lo, window) <= Max(0, max) {
      assert Load(granted, lo, window) <= Max(0, max);
      assert (granted + [now])[..|granted|] == granted;
      if lo < now <= lo + window {
        WindowAtMostRecent(granted, lo, lo + window);
        RecentFewer(granted, now - window, lo);
      }
    }
  }

  ghost predicate StateInv(s: State, key: Id, clock: int, max: int, window: int) {
    KeyInv(Bucket(s.buckets, key), Bucket(s.granted, key), clock, max, window)
  }

  lemma NextKeepsInv(s: State, c: Call, max: int, window: int, key: Id)
    requires StateInv(s, key, c.at, max, window)
    ensures StateInv(Next(s, c, max, window), key, c.at, max, window)
  {
    hide KeyInv, Recent;
    var bucket, granted := Bucket(s.buckets, key), Bucket(s.granted, key);
    var kept := Recent(bucket, c.at - window);
    KeyInvLater(bucket, granted, c.at, c.at, max, window);
    RecentTwice(bucket, c.at - window, c.at - window);
    if |kept| < max {
      KeyInvGrant(kept, granted, c.at, max, window);
    }
  }

  lemma {:induction false} RunInv(calls: seq<Call>, max: int, window: int, key: Id, clock: int)
    requires Monotone(calls)
    requires forall i :: 0 <= i < |calls| ==> calls[i].at <= clock
    ensures var s := Run(calls, max, window);
      KeyInv(Bucket(s.buckets, key), Bucket(s.granted, key), clock, max, window)
    decreases |calls|
  {
    hide KeyInv, Next;
    if calls == [] {
      EmptyInv(clock, max, window);
    } else {
      var before, c := calls[..|calls| - 1], calls[|calls| - 1];
      RunInv(before, max, window, key, c.at);
      NextKeepsInv(Run(before, max, window), c, max, window, key);
      var s := Run(calls, max, window);
      KeyInvLater(Bucket(s.buckets, key), Bucket(s.granted, key), c.at, clock, max, window);
    }
  }

  lemma EmptyInv(clock: int, max: int, window: int)
    ensures KeyInv([], [], clock, max, window)
  {
  }

  /** For a clock that never goes back, no window of the configured length ever
      holds more than the permitted number of allowed calls of a key. */
  lemma WindowsNeverOverflow(calls: seq<Call>, max: int, window: int, key: Id, lo: int)
    requires Monotone(calls)
    ensures Load(Bucket(Run(calls, max, window).granted, key), lo, window) <= Max(0, max)
  {
    RunInv(calls, max, window, key, if calls == [] then 0 else calls[|calls| - 1].at);
  }

  lemma DecisionFromInv(s: State, max: int, window: int, key: Id, at: int)
    requires KeyInv(Bucket(s.buckets, key), Bucket(s.granted, key), at, max, window)
    ensures var used := Load(Bucket(s.granted, key), at - window, window);
      (Decide(s.buckets, key, at, max, window) <==> used < max)
      && (!Decide(s.buckets, key, at, max, window) ==> used == Max(0, max))
  {
    WindowIsRecent(Bucket(s.granted, key), at - window, at);
  }

  /** A call is allowed exactly when the window that ends with it still has room,
      counted over the whole history; a denial means the window is full. */
  lemma DecisionMatchesHistory(calls: seq<Call>, max: int, window: int, key: Id, at: int)
    requires Monotone(calls + [CheckAt(key, at)])
    ensures var s := Run(calls, max, window);
      var used := Load(Bucket(s.granted, key), at - window, window);
      (Decide(s.buckets, key, at, max, window) <==> used < max)
      && (!Decide(s.buckets, key, at, max, window) ==> used == Max(0, max))
  {
    hide KeyInv, Run, Decide;
    var all := calls + [CheckAt(key, at)];
    assert forall i :: 0 <= i < |calls| ==> calls[i] == all[i];
    assert forall i :: 0 <= i < |calls| ==> calls[i].at <= all[|calls|].at;
    RunInv(calls, max, window, key, at);
    DecisionFromInv(Run(calls, max, window), max, window, key, at);
  }

  /** The calls without the snapshots. */
  function Checks(calls: seq<Call>): seq<Call> {
    if calls == [] then []
    else Checks(calls[..|calls| - 1]) + if calls[|calls| - 1].CheckAt? then [calls[|calls| - 1]] else []
  }

  lemma {:induction false} ChecksMonotone(calls: seq<Call>)
    requires Monotone(calls)
    ensures Monotone(Checks(calls))
    ensures forall c :: c in Checks(calls) ==> c in calls
    decreases |calls|
  {
    if calls != [] {
      ChecksMonotone(calls[..|calls| - 1]);
      forall c | c in Checks(calls[..|calls| - 1]) ensures c.at <= calls[|calls| - 1].at {
        var i :| 0 <= i < |calls| - 1 && calls[i] == c;
      }
    }
  }

  lemma MonotonePrefix(calls: seq<Call>, c: Call)
    requires Monotone(calls + [c])
    ensures Monotone(calls)
  {
    assert forall i :: 0 <= i < |calls| ==> (calls + [c])[i] == calls[i];
  }

  /** Snapshots in between never change a decision. */
  lemma {:induction false} SnapshotsDoNotMatter(calls: seq<Call>, max: int, window: int)
    requires Monotone(calls)
    ensures Run(calls, max, window).granted == Run(Checks(calls), max, window).granted
    decreases |calls|
  {
    if calls != [] {
      hide Run, Checks, Monotone;
      var before := calls[..|calls| - 1];
      var c := calls[|calls| - 1];
      assert calls == before + [c];
      MonotonePrefix(before, c);
      SnapshotsDoNotMatter(before, max, window);
      RunAppend(before, c, max, window);
      ChecksAppend(before, c);
      if c.CheckAt? {
        ChecksMonotone(calls);
        RunAppend(Checks(before), c, max, window);
        SameDecision(before, Checks(before), c, max, window);
      }
    }
  }

  lemma RunAppend(calls: seq<Call>, c: Call, max: int, window: int)
    ensures Run(calls + [c], max, window) == Next(Run(calls, max, window), c, max, window)
  {
    assert (calls + [c])[..|calls|] == calls;
  }

  lemma ChecksAppend(calls: seq<Call>, c: Call)
    ensures Checks(calls + [c]) == if c.CheckAt? then Checks(calls) + [c] else Checks(calls)
  {
    assert (calls + [c])[..|calls|] == calls;
  }

  lemma SameDecision(a: seq<Call>, b: seq<Call>, c: Call, max: int, window: int)
    requires Monotone(a + [c]) && Monotone(b + [c]) && c.CheckAt?
    requires Run(a, max, window).granted == Run(b, max, window).granted
    ensures Next(Run(a, max, window), c, max, window).granted == Next(Run(b, max, window), c, max, window).granted
  {
    hide Run, Decide, AfterCheck, Monotone;
    DecisionMatchesHistory(a, max, window, c.key, c.at);
    DecisionMatchesHistory(b, max, window, c.key, c.at);
  }

  /** After a denial, and with no other call, a retry after the advertised delay is
      allowed exactly when the limiter allows anything at all. */
  lemma RetryAfterIsHonest(calls: seq<Call>, max: int, window: int, key: Id, now: int)
    requires !Decide(Run(calls, max, window).buckets, key, now, max, window)
    ensures var s := Run(calls, max, window).buckets;
      var d := DecisionAfter(s, key, now, max, window);
      Decide(AfterCheck(s, key, now, max, window), key, now + 1000 * d.retryAfterSec, max, window) <==> max >= 1
  {
    var s := Run(calls, max, window).buckets;
    var kept := Recent(Bucket(s, key), now - window);
    BucketsAreSmall(calls, max, window, key);
    var later := now + 1000 * DecisionAfter(s, key, now, max, window).retryAfterSec;
    if max >= 1 {
      assert kept[0] <= later - window;
      assert Recent(kept, later - window) == Recent(kept[1..], later - window);
    }
  }

  lemma {:induction false} BucketsAreSmall(calls: seq<Call>, max: int, window: int, key: Id)
    ensures |Bucket(Run(calls, max, window).buckets, key)| <= Max(0, max)
    decreases |calls|
  {
    if calls != [] {
      BucketsAreSmall(calls[..|calls| - 1], max, window, key);
    }
  }

  lemma RunNothing(max: int, window: int)
    ensures Run([], max, window) == State(map[], map[])
  {
  }

  // ----- what the clock has to keep -----

  ghost predicate NeverOverflows(calls: seq<Call>, max: int, window: int) {
    forall key, lo :: Load(Bucket(Run(calls, max, window).granted, key), lo, window) <= Max(0, max)
  }

  function Times(at: int, n: nat): seq<int> {
    seq(n, _ => at)
  }

  function Burst(key: Id, at: int, n: nat): seq<Call> {
    seq(n, _ => CheckAt(key, at))
  }

  lemma {:induction false} NoneRecent(at: int, n: nat, lo: int)
    ensures Recent(Times(at, n), lo) == if at > lo then Times(at, n) else []
    decreases n
  {
    if n > 0 {
      assert Times(at, n)[1..] == Times(at, n - 1);
      NoneRecent(at, n - 1, lo);
      assert [at] + Times(at, n - 1) == Times(at, n);
    }
  }

  lemma {:induction false} AllInWindow(at: int, n: nat, lo: int, hi: int)
    requires lo < at <= hi
    ensures InWindow(Times(at, n), lo, hi) == n
    decreases n
  {
    if n > 0 {
      assert Times(at, n)[..n - 1] == Times(at, n - 1);
      AllInWindow(at, n - 1, lo, hi);
    }
  }

  function Granting(key: Id, times: seq<int>): State {
    State(map[key := times], map[key := times])
  }

  lemma FirstGranted(key: Id, at: int, max: int, window: int)
    requires max >= 1
    ensures Next(State(map[], map[]), CheckAt(key, at), max, window) == Granting(key, Times(at, 1))
  {
    var none: seq<int> := [];
    assert none + [at] == Times(at, 1);
  }

  lemma OneMoreGranted(key: Id, at: int, n: nat, max: int, window: int)
    requires n < max && window >= 1
    ensures Next(Granting(key, Times(at, n)), CheckAt(key, at), max, window) == Granting(key, Times(at, n + 1))
  {
    hide Recent;
    NoneRecent(at, n, at - window);
    assert Times(at, n) + [at] == Times(at, n + 1);
  }

  /** Up to the limit every call of a burst is allowed. */
  lemma {:induction false} BurstIsGranted(key: Id, at: int, n: nat, max: int, window: int)
    requires 1 <= n <= max && window >= 1
    ensures Run(Burst(key, at, n), max, window) == Granting(key, Times(at, n))
    decreases n
  {
    hide Next, Run, Times;
    var before := Burst(key, at, n - 1);
    assert Burst(key, at, n) == before + [CheckAt(key, at)];
    RunAppend(before, CheckAt(key, at), max, window);
    if n > 1 {
      BurstIsGranted(key, at, n - 1, max, window);
      OneMoreGranted(key, at, n - 1, max, window);
    } else {
      assert before == [];
      RunNothing(max, window);
      FirstGranted(key, at, max, window);
    }
  }

  /** A full burst, forgotten at a later reading of the clock, and one more call
      before that reading. */
  lemma ForgottenBurstOverflows(latest: int, at: int, max: int, window: int, key: Id)
    requires max >= 1 && window >= 1 && at < latest
    ensures var burst := if at > latest - window then latest - window else at;
      var calls := Burst(key, burst, max) + [SnapshotAt(latest)];
      Monotone(calls) && !NeverOverflows(calls + [CheckAt(key, at)], max, window)
  {
    hide Run, Monotone;
    var burst := if at > latest - window then latest - window else at;
    var calls := Burst(key, burst, max) + [SnapshotAt(latest)];
    assert Monotone(calls) by { BurstInOrder(key, burst, max, latest); }
    BurstIsGranted(key, burst, max, max, window);
    RunAppend(Burst(key, burst, max), SnapshotAt(latest), max, window);
    NoneRecent(burst, max, latest - window);
    RunAppend(calls, CheckAt(key, at), max, window);
    var times := Times(burst, max) + [at];
    assert Bucket(Run(calls + [CheckAt(key, at)], max, window).granted, key) == times;
    var lo := (if burst < at then burst else at) - 1;
    AllInWindow(burst, max, lo, lo + window);
    assert times[..max] == Times(burst, max);
    assert Load(times, lo, window) == max + 1;
  }

  lemma BurstInOrder(key: Id, at: int, n: nat, latest: int)
    requires at <= latest
    ensures Monotone(Burst(key, at, n) + [SnapshotAt(latest)])
  {
  }

  lemma {:induction false} NothingGranted(calls: seq<Call>, max: int, window: int)
    requires max < 1
    ensures Run(calls, max, window).granted == map[]
    decreases |calls|
  {
    if calls != [] {
      NothingGranted(calls[..|calls| - 1], max, window);
    }
  }

  lemma {:induction false} EmptyWindow(times: seq<int>, lo: int, hi: int)
    requires hi <= lo
    ensures InWindow(times, lo, hi) == 0
    decreases |times|
  {
    if times != [] {
      EmptyWindow(times[..|times| - 1], lo, hi);
    }
  }

  /** After readings that never went back, and whatever the calls were, a call is
      safe at a reading of the clock exactly when that reading is not before the
      latest one; limiters that allow nothing, or count nothing, are always safe. */
  lemma WeakestSafeClock(latest: int, at: int, max: int, window: int, key: Id)
    ensures (forall calls: seq<Call> ::
               Monotone(calls) && calls != [] && calls[|calls| - 1].at == latest
               ==> NeverOverflows(calls + [CheckAt(key, at)], max, window))
      <==> at >= latest || max < 1 || window < 1
  {
    if at < latest && max >= 1 && window >= 1 {
      var burst := if at > latest - window then latest - window else at;
      var calls := Burst(key, burst, max) + [SnapshotAt(latest)];
      ForgottenBurstOverflows(latest, at, max, window, key);
      assert calls[|calls| - 1].at == latest;
    } else {
      forall calls: seq<Call> | Monotone(calls) && calls != [] && calls[|calls| - 1].at == latest
        ensures NeverOverflows(calls + [CheckAt(key, at)], max, window)
      {
        SafeCall(calls, max, window, CheckAt(key, at));
      }
    }
  }

  lemma SafeCall(calls: seq<Call>, max: int, window: int, c: Call)
    requires Monotone(calls) && calls != []
    requires c.at >= calls[|calls| - 1].at || max < 1 || window < 1
    ensures NeverOverflows(calls + [c], max, window)
  {
    hide Run;
    var all := calls + [c];
    forall key, lo ensures Load(Bucket(Run(all, max, window).granted, key), lo, window) <= Max(0, max) {
      if max < 1 {
        NothingGranted(all, max, window);
      } else if window < 1 {
        EmptyWindow(Bucket(Run(all, max, window).granted, key), lo, lo + window);
      } else {
        assert Monotone(all) by {
          forall i, j | 0 <= i < j < |all| ensures all[i].at <= all[j].at {
            assert all[i] == calls[i];
          }
        }
        WindowsNeverOverflow(all, max, window, key, lo);
      }
    }
  }

  lemma RunTwo(a: Call, b: Call, max: int, window: int)
    ensures Run([a, b], max, window) == Next(Next(State(map[], map[]), a, max, window), b, max, window)
  {
    hide Next;
    RunNothing(max, window);
    RunAppend([], a, max, window);
    RunAppend([a], b, max, window);
    assert [] + [a] == [a] && [a] + [b] == [a, b];
  }

  lemma RunFour(a: Call, b: Call, c: Call, d: Call, max: int, window: int)
    ensures Run([a, b, c, d], max, window)
      == Next(Next(Run([a, b], max, window), c, max, window), d, max, window)
  {
    hide Next, Run;
    RunAppend([a, b], c, max, window);
    RunAppend([a, b, c], d, max, window);
    assert [a, b] + [c] == [a, b, c] && [a, b, c] + [d] == [a, b, c, d];
  }

  /** What a clock that goes back would do: three calls in a window meant for two. */
  lemma BackwardClockOverflows(key: Id)
    ensures var calls := [CheckAt(key, 100), CheckAt(key, 101), CheckAt(key, 200), CheckAt(key, 105)];
      Run(calls, 2, 10).granted == map[key := [100, 101, 200, 105]]
      && InWindow([100, 101, 200, 105], 95, 105) == 3
  {
    hide Next, Run, InWindow;
    RunTwo(CheckAt(key, 100), CheckAt(key, 101), 2, 10);
    RunFour(CheckAt(key, 100), CheckAt(key, 101), CheckAt(key, 200), CheckAt(key, 105), 2, 10);
    TwoGranted(key);
    TwoMoreGranted(key);
    ThreeInWindow();
  }

  lemma TwoGranted(key: Id)
    ensures Next(Next(State(map[], map[]), CheckAt(key, 100), 2, 10), CheckAt(key, 101), 2, 10)
      == State(map[key := [100, 101]], map[key := [100, 101]])
  {
    hide Next;
    Granted(State(map[], map[]), [], key, 100);
    Granted(State(map[key := [100]], map[key := [100]]), [100], key, 101);
    var none: seq<int> := [];
    assert none + [100] == [100] && [100] + [101] == [100, 101];
  }

  lemma TwoMoreGranted(key: Id)
    ensures Next(Next(State(map[key := [100, 101]], map[key := [100, 101]]), CheckAt(key, 200), 2, 10),
                 CheckAt(key, 105), 2, 10).granted == map[key := [100, 101, 200, 105]]
  {
    hide Next;
    Granted(State(map[key := [100, 101]], map[key := [100, 101]]), [], key, 200);
    assert [100, 101] + [200] == [100, 101, 200] && [] + [200] == [200];
    Granted(State(map[key := [200]], map[key := [100, 101, 200]]), [200], key, 105);
    assert [100, 101, 200] + [105] == [100, 101, 200, 105];
  }

  lemma ThreeInWindow()
    ensures InWindow([100, 101, 200, 105], 95, 105) == 3
  {
    var t := [100, 101, 200, 105];
    assert t[..3] == [100, 101, 200] && [100, 101, 200][..2] == [100, 101] && [100, 101][..1] == [100];
    assert InWindow([100], 95, 105) == 1;
    assert InWindow([100, 101], 95, 105) == 2;
    assert InWindow([100, 101, 200], 95, 105) == 2;
  }

  /** One allowed call in a limiter of two calls per 10 ms that has seen one key. */
  lemma Granted(s: State, kept: seq<int>, key: Id, at: int)
    requires kept == Recent(Bucket(s.buckets, key), at - 10) && |kept| < 2
    requires s.buckets.Keys <= {key} && s.granted.Keys <= {key}
    ensures Next(s, CheckAt(key, at), 2, 10)
      == State(map[key := kept + [at]], map[key := Bucket(s.granted, key) + [at]])
  {
  }
}
