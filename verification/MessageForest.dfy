/** Turning a flat list of messages into threads: each message under the message
    it answers, in list order. */
module MessageForest {
  import opened Basics
  import opened Lineage

  datatype Thread = Thread(id: Id, replies: seq<Thread>)

  /** A list of distinct messages, each with the message it answers. */
  ghost predicate IsListing(links: Links, items: seq<Id>) {
    NoRepeats(items) && Elements(items) <= links.Keys
  }

  /** Messages that answer nothing in the list start a thread. */
  predicate StartsThread(links: Links, items: seq<Id>, x: Id)
    requires x in links
  {
    links[x].None? || links[x].value !in items
  }

  /** The first messages, in list order, that answer `parent`. */
  function Replies(links: Links, items: seq<Id>, parent: Id): (r: seq<Id>)
    requires Elements(items) <= links.Keys
    ensures |r| <= |items|
    ensures forall x :: x in r <==> x in items && links[x] == Some(parent)
  {
    if items == [] then []
    else
      var front, x := items[..|items| - 1], items[|items| - 1];
      assert Elements(front) <= Elements(items) && x in Elements(items);
      assert items == front + [x];
      if links[x] == Some(parent) then Replies(links, front, parent) + [x] else Replies(links, front, parent)
  }

  function Starters(links: Links, items: seq<Id>, among: seq<Id>): (r: seq<Id>)
    requires Elements(among) <= links.Keys
    ensures |r| <= |among|
    ensures forall x :: x in r <==> x in among && StartsThread(links, items, x)
  {
    if among == [] then []
    else
      var front, x := among[..|among| - 1], among[|among| - 1];
      assert Elements(front) <= Elements(among) && x in Elements(among);
      assert among == front + [x];
      if StartsThread(links, items, x) then Starters(links, items, front) + [x] else Starters(links, items, front)
  }

  lemma {:induction false} RepliesOnce(links: Links, items: seq<Id>, parent: Id)
    requires IsListing(links, items)
    ensures NoRepeats(Replies(links, items, parent))
  {
    if items != [] {
      var front := items[..|items| - 1];
      assert Elements(front) <= Elements(items);
      RepliesOnce(links, front, parent);
      assert forall i :: 0 <= i < |front| ==> front[i] == items[i];
    }
  }

  lemma {:induction false} StartersOnce(links: Links, items: seq<Id>, among: seq<Id>)
    requires IsListing(links, among)
    ensures NoRepeats(Starters(links, items, among))
  {
    if among != [] {
      var front := among[..|among| - 1];
      assert Elements(front) <= Elements(among);
      StartersOnce(links, items, front);
      assert forall i :: 0 <= i < |front| ==> front[i] == among[i];
    }
  }

  // ----- paths from the start of a thread -----

  /** From a message that starts a thread, each next message answering the last. */
  ghost predicate IsThreadPath(links: Links, items: seq<Id>, p: seq<Id>) {
    && (forall i :: 0 <= i < |p| ==> p[i] in items && p[i] in links)
    && (p != [] ==> StartsThread(links, items, p[0]))
    && (forall i :: 1 <= i < |p| ==> links[p[i]] == Some(p[i - 1]))
  }

  /** `c` may come after `p`. */
  ghost predicate CanFollow(links: Links, items: seq<Id>, p: seq<Id>, c: Id)
    requires c in links
  {
    c in items && if p == [] then StartsThread(links, items, c) else links[c] == Some(p[|p| - 1])
  }

  lemma {:induction false} PathVisitsOnce(links: Links, items: seq<Id>, p: seq<Id>, i: nat, j: nat)
    requires IsThreadPath(links, items, p) && i < j < |p|
    ensures p[i] != p[j]
    decreases i
  {
    assert links[p[j]] == Some(p[j - 1]) && p[j - 1] in items;
    if i > 0 {
      assert links[p[i]] == Some(p[i - 1]);
      PathVisitsOnce(links, items, p, i - 1, j - 1);
    }
  }

  lemma PathGrows(links: Links, items: seq<Id>, p: seq<Id>, c: Id)
    requires IsThreadPath(links, items, p) && c in links && CanFollow(links, items, p, c)
    ensures IsThreadPath(links, items, p + [c]) && c !in p
    ensures Elements(items) - Elements(p + [c]) < Elements(items) - Elements(p)
  {
    var q := p + [c];
    assert IsThreadPath(links, items, q);
    if c in p {
      var i :| 0 <= i < |p| && p[i] == c;
      PathVisitsOnce(links, items, q, i, |p|);
    }
    assert c in Elements(items) - Elements(p) && c in Elements(q);
    assert Elements(p) <= Elements(q);
  }

  /** A path ends where it starts, or with an answer to the message before. */
  lemma PathEnd(links: Links, items: seq<Id>, p: seq<Id>)
    requires IsThreadPath(links, items, p) && p != []
    ensures var x := p[|p| - 1];
      x in links
      && if |p| == 1 then StartsThread(links, items, x)
         else !StartsThread(links, items, x) && links[x] == Some(p[|p| - 2]) && IsThreadPath(links, items, p[..|p| - 1])
  {
    if |p| > 1 {
      assert links[p[|p| - 1]] == Some(p[|p| - 2]) && p[|p| - 2] in items;
    }
  }

  /** Only one path leads to a message. */
  lemma {:induction false} OnePath(links: Links, items: seq<Id>, p: seq<Id>, q: seq<Id>)
    requires IsThreadPath(links, items, p) && IsThreadPath(links, items, q)
    requires p != [] && q != [] && p[|p| - 1] == q[|q| - 1]
    ensures p == q
    decreases |p|
  {
    hide IsThreadPath, StartsThread;
    PathEnd(links, items, p);
    PathEnd(links, items, q);
    assert p == p[..|p| - 1] + [p[|p| - 1]] && q == q[..|q| - 1] + [q[|q| - 1]];
    if |p| > 1 {
      OnePath(links, items, p[..|p| - 1], q[..|q| - 1]);
    }
  }

  // ----- the threads -----

  /** For each answered message, its answers. */
  function ReplyTable(links: Links, items: seq<Id>): map<Id, seq<Id>>
    requires Elements(items) <= links.Keys
  {
    map p | p in AnsweredBy(links, items, items) :: Replies(links, items, p)
  }

  /** The messages of the list that some message of `done` answers. */
  function AnsweredBy(links: Links, items: seq<Id>, done: seq<Id>): set<Id>
    requires Elements(done) <= links.Keys
  {
    set x | x in done && !StartsThread(links, items, x) && links[x].Some? :: links[x].value
  }

  function RowOf(table: map<Id, seq<Id>>, p: Id): seq<Id> {
    if p in table then table[p] else []
  }

  lemma TableRow(links: Links, items: seq<Id>, p: Id)
    requires Elements(items) <= links.Keys && p in items
    ensures RowOf(ReplyTable(links, items), p) == Replies(links, items, p)
  {
    var r := Replies(links, items, p);
    assert r != [] ==> r[0] in r;
    assert forall x :: x in r ==> !StartsThread(links, items, x) && links[x].value in AnsweredBy(links, items, items);
  }

  /** The message at the end of a path with everything that answers it. The path
      is the reason the recursion ends: no message can come up twice on it. */
  function AttachReplies(links: Links, items: seq<Id>, table: map<Id, seq<Id>>, ghost path: seq<Id>, node: Id): Thread
    requires IsListing(links, items) && table == ReplyTable(links, items)
    requires IsThreadPath(links, items, path) && node in links && CanFollow(links, items, path, node)
    decreases Elements(items) - Elements(path), 0
  {
    PathGrows(links, items, path, node);
    TableRow(links, items, node);
    Thread(node, AttachAll(links, items, table, path + [node], RowOf(table, node)))
  }

  function AttachAll(links: Links, items: seq<Id>, table: map<Id, seq<Id>>, ghost path: seq<Id>, nodes: seq<Id>)
    : seq<Thread>
    requires IsListing(links, items) && table == ReplyTable(links, items)
    requires IsThreadPath(links, items, path)
    requires forall c :: c in nodes ==> c in links && CanFollow(links, items, path, c)
    decreases Elements(items) - Elements(path), 1, |nodes|
  {
    if nodes == [] then []
    else [AttachReplies(links, items, table, path, nodes[0])] + AttachAll(links, items, table, path, nodes[1..])
  }

  function ThreadsOf(links: Links, items: seq<Id>): seq<Thread>
    requires IsListing(links, items)
  {
    AttachAll(links, items, ReplyTable(links, items), [], Starters(links, items, items))
  }

  /** Every message of a thread, parents first. */
  function Flatten(t: Thread): seq<Id> {
    [t.id] + FlattenAll(t.replies)
  }

  function FlattenAll(ts: seq<Thread>): seq<Id> {
    if ts == [] then [] else Flatten(ts[0]) + FlattenAll(ts[1..])
  }

  // ----- what the threads contain -----

  ghost predicate LeadsThrough(links: Links, items: seq<Id>, path: seq<Id>, x: Id, q: seq<Id>) {
    IsThreadPath(links, items, q) && path <= q && q != [] && q[|q| - 1] == x
  }

  /** The messages whose path from the start of their thread begins with `path`. */
  ghost function Below(links: Links, items: seq<Id>, path: seq<Id>): set<Id> {
    set x | x in items && exists q :: LeadsThrough(links, items, path, x, q)
  }

  ghost function BelowAll(links: Links, items: seq<Id>, path: seq<Id>, nodes: seq<Id>): set<Id> {
    set c, x | c in nodes && x in Below(links, items, path + [c]) :: x
  }

  lemma SiblingsShareNothing(links: Links, items: seq<Id>, path: seq<Id>, c: Id, d: Id)
    requires c != d
    ensures Below(links, items, path + [c]) !! Below(links, items, path + [d])
  {
    forall x | x in Below(links, items, path + [c]) && x in Below(links, items, path + [d]) ensures false {
      var p :| LeadsThrough(links, items, path + [c], x, p);
      var q :| LeadsThrough(links, items, path + [d], x, q);
      assert p[..|path| + 1] == path + [c] && q[..|path| + 1] == path + [d];
      assert (path + [c])[|path|] == c && (path + [d])[|path|] == d;
      OnePath(links, items, p, q);
    }
  }

  /** A message, and the messages below its answers. */
  lemma BelowSplits(links: Links, items: seq<Id>, path: seq<Id>, node: Id)
    requires Elements(items) <= links.Keys
    requires IsThreadPath(links, items, path + [node])
    ensures Below(links, items, path + [node])
      == {node} + BelowAll(links, items, path + [node], Replies(links, items, node))
    ensures node !in BelowAll(links, items, path + [node], Replies(links, items, node))
  {
    var here := path + [node];
    var nodes := Replies(links, items, node);
    assert LeadsThrough(links, items, here, node, here);
    forall x | x in Below(links, items, here) && x != node ensures x in BelowAll(links, items, here, nodes) {
      var q :| LeadsThrough(links, items, here, x, q);
      assert q[|path|] == node && |q| > |here|;
      var c := q[|here|];
      assert c in nodes;
      assert here + [c] <= q;
      assert LeadsThrough(links, items, here + [c], x, q);
      assert x in Below(links, items, here + [c]);
    }
    forall x | x in BelowAll(links, items, here, nodes) ensures x in Below(links, items, here) && x != node {
      var c :| c in nodes && x in Below(links, items, here + [c]);
      var q :| LeadsThrough(links, items, here + [c], x, q);
      assert LeadsThrough(links, items, here, x, q);
      assert q[|path|] == node;
      PathVisitsOnce(links, items, q, |path|, |q| - 1);
    }
  }

  lemma {:induction false} ThreadHolds(links: Links, items: seq<Id>, table: map<Id, seq<Id>>, path: seq<Id>, node: Id)
    requires IsListing(links, items) && table == ReplyTable(links, items)
    requires IsThreadPath(links, items, path) && node in links && CanFollow(links, items, path, node)
    ensures var flat := Flatten(AttachReplies(links, items, table, path, node));
      NoRepeats(flat) && Elements(flat) == Below(links, items, path + [node])
    decreases Elements(items) - Elements(path), 0
  {
    hide Below, BelowAll;
    PathGrows(links, items, path, node);
    TableRow(links, items, node);
    RepliesOnce(links, items, node);
    BelowSplits(links, items, path, node);
    var nodes := Replies(links, items, node);
    ForestHolds(links, items, table, path + [node], nodes);
    ConcatNew([node], FlattenAll(AttachAll(links, items, table, path + [node], nodes)));
  }

  lemma {:induction false} ForestHolds(links: Links, items: seq<Id>, table: map<Id, seq<Id>>, path: seq<Id>,
                                       nodes: seq<Id>)
    requires IsListing(links, items) && table == ReplyTable(links, items)
    requires IsThreadPath(links, items, path) && NoRepeats(nodes)
    requires forall c :: c in nodes ==> c in links && CanFollow(links, items, path, c)
    ensures var flat := FlattenAll(AttachAll(links, items, table, path, nodes));
      NoRepeats(flat) && Elements(flat) == BelowAll(links, items, path, nodes)
    decreases Elements(items) - Elements(path), 1, |nodes|
  {
    if nodes != [] {
      var first, rest := nodes[0], nodes[1..];
      ThreadHolds(links, items, table, path, first);
      ForestHolds(links, items, table, path, rest);
      assert nodes == [first] + rest;
      BelowAllSplits(links, items, path, first, rest);
      ConcatNew(Flatten(AttachReplies(links, items, table, path, first)),
                FlattenAll(AttachAll(links, items, table, path, rest)));
    }
  }

  lemma BelowAllSplits(links: Links, items: seq<Id>, path: seq<Id>, first: Id, rest: seq<Id>)
    requires first !in rest
    ensures BelowAll(links, items, path, [first] + rest)
      == Below(links, items, path + [first]) + BelowAll(links, items, path, rest)
    ensures Below(links, items, path + [first]) !! BelowAll(links, items, path, rest)
  {
    hide Below;
    forall c | c in rest ensures Below(links, items, path + [first]) !! Below(links, items, path + [c]) {
      SiblingsShareNothing(links, items, path, first, c);
    }
    assert forall c :: c in [first] + rest <==> c == first || c in rest;
  }

  /** The message has a path from the start of a thread. */
  ghost predicate IsThreaded(links: Links, items: seq<Id>, x: Id) {
    x in Below(links, items, [])
  }

  /** The threads list every threaded message once, and nothing else. */
  lemma ThreadsListThreaded(links: Links, items: seq<Id>)
    requires IsListing(links, items)
    ensures NoRepeats(FlattenAll(ThreadsOf(links, items)))
    ensures Elements(FlattenAll(ThreadsOf(links, items))) == set x | x in items && IsThreaded(links, items, x)
  {
    var starters := Starters(links, items, items);
    StartersOnce(links, items, items);
    ForestHolds(links, items, ReplyTable(links, items), [], starters);
    forall x | x in items ensures IsThreaded(links, items, x) <==> x in BelowAll(links, items, [], starters) {
      if q :| LeadsThrough(links, items, [], x, q) {
        assert q[0] in starters;
        assert [] + [q[0]] <= q;
        assert LeadsThrough(links, items, [] + [q[0]], x, q);
        assert x in Below(links, items, [] + [q[0]]);
      }
      if x in BelowAll(links, items, [], starters) {
        var c :| c in starters && x in Below(links, items, [] + [c]);
        var q :| LeadsThrough(links, items, [] + [c], x, q);
        assert LeadsThrough(links, items, [], x, q);
      }
    }
  }

  // ----- when nothing is lost -----

  /** Messages that all answer one another: no thread can start among them. */
  ghost predicate IsStuck(links: Links, ids: set<Id>) {
    ids != {} && forall x :: x in ids ==> x in links && links[x].Some? && links[x].value in ids
  }

  ghost predicate NoCycle(links: Links, ids: set<Id>) {
    forall stuck :: IsStuck(links, stuck) ==> !(stuck <= ids)
  }

  lemma {:induction false} StuckIsNotThreaded(links: Links, items: seq<Id>, stuck: set<Id>, p: seq<Id>)
    requires IsStuck(links, stuck) && stuck <= Elements(items)
    requires IsThreadPath(links, items, p) && p != []
    ensures p[|p| - 1] !in stuck
    decreases |p|
  {
    if |p| > 1 {
      StuckIsNotThreaded(links, items, stuck, p[..|p| - 1]);
      assert links[p[|p| - 1]] == Some(p[|p| - 2]);
    }
  }

  /** The threads are a permutation of the list exactly when no messages of the
      list answer one another in a circle; the others drop out. */
  lemma ThreadsAreAPermutation(links: Links, items: seq<Id>)
    requires IsListing(links, items)
    ensures multiset(FlattenAll(ThreadsOf(links, items))) == multiset(items) <==> NoCycle(links, Elements(items))
  {
    hide *;
    ThreadsListThreaded(links, items);
    IsListingOnce(links, items);
    SameElements(FlattenAll(ThreadsOf(links, items)), items);
    LostAreStuck(links, items);
    var kept := set x | x in items && IsThreaded(links, items, x);
    KeptIsAll(links, items, kept);
  }

  lemma IsListingOnce(links: Links, items: seq<Id>)
    requires IsListing(links, items)
    ensures NoRepeats(items)
  {
  }

  lemma KeptIsAll(links: Links, items: seq<Id>, kept: set<Id>)
    requires kept == set x | x in items && IsThreaded(links, items, x)
    ensures kept == Elements(items) <==> forall x :: x in items ==> IsThreaded(links, items, x)
  {
    hide IsThreaded;
    if kept == Elements(items) {
      assert forall x :: x in items ==> x in Elements(items);
    }
  }

  lemma LostAreStuck(links: Links, items: seq<Id>)
    requires IsListing(links, items)
    ensures (forall x :: x in items ==> IsThreaded(links, items, x)) <==> NoCycle(links, Elements(items))
  {
    hide IsThreaded;
    var lost := set x | x in items && !IsThreaded(links, items, x);
    if lost != {} {
      forall x | x in lost ensures x in links && links[x].Some? && links[x].value in lost {
        assert x in Elements(items);
        LostParent(links, items, x);
      }
      assert IsStuck(links, lost) && lost <= Elements(items);
    }
    if stuck :| IsStuck(links, stuck) && stuck <= Elements(items) {
      var x :| x in stuck;
      StuckIsLost(links, items, stuck, x);
    }
    assert forall x :: x in items ==> (x in lost <==> !IsThreaded(links, items, x));
  }

  lemma StuckIsLost(links: Links, items: seq<Id>, stuck: set<Id>, x: Id)
    requires IsStuck(links, stuck) && stuck <= Elements(items) && x in stuck
    ensures x in items && !IsThreaded(links, items, x)
  {
    assert x in Elements(items);
    if IsThreaded(links, items, x) {
      var q :| LeadsThrough(links, items, [], x, q);
      StuckIsNotThreaded(links, items, stuck, q);
    }
  }

  lemma StarterIsThreaded(links: Links, items: seq<Id>, x: Id)
    requires x in items && x in links && StartsThread(links, items, x)
    ensures IsThreaded(links, items, x)
  {
    assert LeadsThrough(links, items, [], x, [x]);
  }

  lemma ReplyIsThreaded(links: Links, items: seq<Id>, x: Id)
    requires x in items && x in links && links[x].Some? && IsThreaded(links, items, links[x].value)
    ensures IsThreaded(links, items, x)
  {
    var q :| LeadsThrough(links, items, [], links[x].value, q);
    assert LeadsThrough(links, items, [], x, q + [x]);
  }

  lemma LostParent(links: Links, items: seq<Id>, x: Id)
    requires x in items && x in links && !IsThreaded(links, items, x)
    ensures links[x].Some? && links[x].value in items && !IsThreaded(links, items, links[x].value)
  {
    hide IsThreaded;
    if StartsThread(links, items, x) {
      StarterIsThreaded(links, items, x);
    } else if IsThreaded(links, items, links[x].value) {
      ReplyIsThreaded(links, items, x);
    }
  }

  /** Lists without repeats are permutations of each other when they hold the same. */
  lemma SameElements<T>(a: seq<T>, b: seq<T>)
    requires NoRepeats(a) && NoRepeats(b)
    ensures multiset(a) == multiset(b) <==> Elements(a) == Elements(b)
  {
    forall x: T ensures multiset(a)[x] == (if x in a then 1 else 0) && multiset(b)[x] == (if x in b then 1 else 0) {
      CountOnce(a, x);
      CountOnce(b, x);
    }
    if multiset(a) == multiset(b) {
      assert forall x :: x in a <==> x in multiset(a);
      assert forall x :: x in b <==> x in multiset(b);
    }
    if Elements(a) == Elements(b) {
      assert forall x :: x in a <==> x in Elements(a);
      assert forall x :: x in b <==> x in Elements(b);
    }
  }

  lemma {:induction false} CountOnce<T>(s: seq<T>, x: T)
    requires NoRepeats(s)
    ensures multiset(s)[x] == if x in s then 1 else 0
    decreases |s|
  {
    if s != [] {
      var front, last := s[..|s| - 1], s[|s| - 1];
      CountOnce(front, x);
      assert s == front + [last];
      assert forall i :: 0 <= i < |front| ==> front[i] == s[i];
    }
  }

  // ----- the shape of the threads -----

  function IdsOf(ts: seq<Thread>): (ids: seq<Id>)
    ensures |ids| == |ts| && forall i :: 0 <= i < |ts| ==> ids[i] == ts[i].id
  {
    if ts == [] then [] else [ts[0].id] + IdsOf(ts[1..])
  }

  /** Under every message hang exactly its answers, in list order. */
  ghost predicate IsWellThreaded(links: Links, items: seq<Id>, t: Thread)
    requires Elements(items) <= links.Keys
  {
    IdsOf(t.replies) == Replies(links, items, t.id)
    && forall i :: 0 <= i < |t.replies| ==> IsWellThreaded(links, items, t.replies[i])
  }

  lemma {:induction false} AttachedIsWellThreaded(links: Links, items: seq<Id>, table: map<Id, seq<Id>>,
                                                  path: seq<Id>, node: Id)
    requires IsListing(links, items) && table == ReplyTable(links, items)
    requires IsThreadPath(links, items, path) && node in links && CanFollow(links, items, path, node)
    ensures IsWellThreaded(links, items, AttachReplies(links, items, table, path, node))
    decreases Elements(items) - Elements(path), 0
  {
    PathGrows(links, items, path, node);
    TableRow(links, items, node);
    AllAreWellThreaded(links, items, table, path + [node], Replies(links, items, node));
  }

  lemma {:induction false} AllAreWellThreaded(links: Links, items: seq<Id>, table: map<Id, seq<Id>>, path: seq<Id>,
                                              nodes: seq<Id>)
    requires IsListing(links, items) && table == ReplyTable(links, items)
    requires IsThreadPath(links, items, path)
    requires forall c :: c in nodes ==> c in links && CanFollow(links, items, path, c)
    ensures var ts := AttachAll(links, items, table, path, nodes);
      IdsOf(ts) == nodes && forall i :: 0 <= i < |ts| ==> IsWellThreaded(links, items, ts[i])
    decreases Elements(items) - Elements(path), 1, |nodes|
  {
    if nodes != [] {
      AttachedIsWellThreaded(links, items, table, path, nodes[0]);
      AllAreWellThreaded(links, items, table, path, nodes[1..]);
    }
  }

  /** The threads start with the messages that answer nothing in the list, and
      under every message hang its answers. */
  lemma ThreadsAreWellFormed(links: Links, items: seq<Id>)
    requires IsListing(links, items)
    ensures IdsOf(ThreadsOf(links, items)) == Starters(links, items, items)
    ensures forall t :: t in ThreadsOf(links, items) ==> IsWellThreaded(links, items, t)
  {
    AllAreWellThreaded(links, items, ReplyTable(links, items), [], Starters(links, items, items));
  }

  /** The table of answers, after the messages in `done`. */
  ghost predicate IsTable(links: Links, items: seq<Id>, done: seq<Id>, table: map<Id, seq<Id>>)
    requires Elements(done) <= links.Keys
  {
    table.Keys == AnsweredBy(links, items, done) && forall p :: p in table ==> table[p] == Replies(links, done, p)
  }

  lemma NextReply(links: Links, done: seq<Id>, x: Id, p: Id)
    requires Elements(done) <= links.Keys && x in links
    ensures Elements(done + [x]) <= links.Keys
    ensures Replies(links, done + [x], p)
      == if links[x] == Some(p) then Replies(links, done, p) + [x] else Replies(links, done, p)
  {
    assert (done + [x])[..|done|] == done;
  }

  lemma NextAnswered(links: Links, items: seq<Id>, done: seq<Id>, x: Id)
    requires Elements(done) <= links.Keys && x in links && Elements(done + [x]) <= links.Keys
    ensures AnsweredBy(links, items, done + [x])
      == AnsweredBy(links, items, done) + if StartsThread(links, items, x) then {} else {links[x].value}
  {
  }

  lemma AnsweredHasReplies(links: Links, items: seq<Id>, done: seq<Id>, p: Id)
    requires Elements(done) <= links.Keys && Elements(done) <= Elements(items)
    ensures p in items && p !in AnsweredBy(links, items, done) ==> Replies(links, done, p) == []
  {
    var r := Replies(links, done, p);
    hide Replies;
    assert r != [] ==> r[0] in r;
  }

  lemma TableNext(links: Links, items: seq<Id>, done: seq<Id>, table: map<Id, seq<Id>>, x: Id)
    requires Elements(done) <= links.Keys && x in links && IsTable(links, items, done, table)
    requires Elements(done) <= Elements(items)
    ensures Elements(done + [x]) <= links.Keys
    ensures var next := if StartsThread(links, items, x) then table
      else table[links[x].value := RowOf(table, links[x].value) + [x]];
      IsTable(links, items, done + [x], next)
  {
    hide Replies, AnsweredBy;
    AppendNew(done, x);
    NextAnswered(links, items, done, x);
    forall p: Id ensures Replies(links, done + [x], p)
      == (if links[x] == Some(p) then Replies(links, done, p) + [x] else Replies(links, done, p)) {
      NextReply(links, done, x, p);
    }
    if StartsThread(links, items, x) {
      AnsweredAreListed(links, items, done);
    } else {
      AnsweredHasReplies(links, items, done, links[x].value);
    }
  }

  lemma AnsweredAreListed(links: Links, items: seq<Id>, done: seq<Id>)
    requires Elements(done) <= links.Keys
    ensures forall p :: p in AnsweredBy(links, items, done) ==> p in items
  {
  }

  lemma StartersNext(links: Links, items: seq<Id>, done: seq<Id>, x: Id)
    requires Elements(done) <= links.Keys && x in links
    ensures Elements(done + [x]) <= links.Keys
    ensures Starters(links, items, done + [x])
      == if StartsThread(links, items, x) then Starters(links, items, done) + [x] else Starters(links, items, done)
  {
    assert (done + [x])[..|done|] == done;
  }

  method BuildMessageThreads(links: Links, items: seq<Id>) returns (threads: seq<Thread>)
    requires IsListing(links, items)
    ensures threads == ThreadsOf(links, items)
  {
    hide IsTable, Starters, Replies, AttachAll, AnsweredBy;
    var itemIds := set x | x in items;
    var repliesByParent: map<Id, seq<Id>> := map[];
    var roots: seq<Id> := [];
    NothingDone(links, items);
    for k := 0 to |items|
      invariant Elements(items[..k]) <= links.Keys
      invariant roots == Starters(links, items, items[..k])
      invariant IsTable(links, items, items[..k], repliesByParent)
    {
      var x := items[k];
      assert x in Elements(items);
      assert items[..k + 1] == items[..k] + [x];
      StartersNext(links, items, items[..k], x);
      TableNext(links, items, items[..k], repliesByParent, x);
      if links[x].None? || links[x].value !in itemIds {
        roots := roots + [x];
      } else {
        repliesByParent := repliesByParent[links[x].value := RowOf(repliesByParent, links[x].value) + [x]];
      }
    }
    assert items[..|items|] == items;
    WholeTable(links, items, repliesByParent);
    threads := AttachAll(links, items, repliesByParent, [], roots);
  }

  lemma NothingDone(links: Links, items: seq<Id>)
    ensures Elements(items[..0]) <= links.Keys
    ensures Starters(links, items, items[..0]) == [] && IsTable(links, items, items[..0], map[])
  {
  }

  lemma WholeTable(links: Links, items: seq<Id>, table: map<Id, seq<Id>>)
    requires Elements(items) <= links.Keys && IsTable(links, items, items, table)
    ensures table == ReplyTable(links, items)
  {
  }
}
