/** Handoff loop guard: which chains of handoffs it lets pass. */
module HandoffLoops {
  import opened Basics

  type NodeId = string

  const DEFAULT_MAX_HANDOFF_HOPS: int := 8

  datatype Context = Context(
    senderNodeId: NodeId,
    receiverNodeId: NodeId,
    originNodeId: Option<NodeId>,
    hopPath: Option<seq<NodeId>>,
    maxHops: Option<int>)

  datatype Reason = DirectLoop | IndirectLoop | SameSenderReceiver | MaxHopsExceeded

  datatype Decision = Decision(
    refusal: Option<Reason>,
    originNodeId: NodeId,
    hopPath: seq<NodeId>,
    nextHopPath: seq<NodeId>,
    maxHops: int)
  {
    function HopCount(): int { |nextHopPath| - 1 }
  }

  /** Drops empty node ids. */
  function NonEmpty(path: seq<NodeId>): seq<NodeId> {
    if path == [] then []
    else if path[0] == "" then NonEmpty(path[1..])
    else [path[0]] + NonEmpty(path[1..])
  }

  lemma {:induction false} NonEmptyIdentity(path: seq<NodeId>)
    requires forall n :: n in path ==> n != ""
    ensures NonEmpty(path) == path
    decreases |path|
  {
    if path != [] {
      assert path[0] in path;
      assert forall n :: n in path[1..] ==> n in path;
      NonEmptyIdentity(path[1..]);
    }
  }

  function NormalizeHopPath(hopPath: Option<seq<NodeId>>, sender: NodeId, origin: NodeId): (path: seq<NodeId>)
    ensures path != []
  {
    var given := if hopPath.Some? && hopPath.value != [] then hopPath.value else [origin];
    var p := NonEmpty(given);
    var q := if p == [] || p[0] != origin then [origin] + p else p;
    if q[|q| - 1] != sender then q + [sender] else q
  }

  function OriginOf(c: Context): NodeId {
    if c.originNodeId.Some? then c.originNodeId.value
    else if c.hopPath.Some? && c.hopPath.value != [] then c.hopPath.value[0]
    else c.senderNodeId
  }

  function Evaluate(c: Context): Decision {
    var path := NormalizeHopPath(c.hopPath, c.senderNodeId, OriginOf(c));
    var next := path + [c.receiverNodeId];
    var maxHops := c.maxHops.GetOr(DEFAULT_MAX_HANDOFF_HOPS);
    var refusal :=
      if c.senderNodeId == c.receiverNodeId then Some(SameSenderReceiver)
      else if |next| - 1 > maxHops then Some(MaxHopsExceeded)
      else if c.receiverNodeId in path then
        Some(if |path| >= 2 && path[|path| - 2] == c.receiverNodeId then DirectLoop else IndirectLoop)
      else None;
    Decision(refusal, OriginOf(c), path, next, maxHops)
  }

  /** Allowed handoffs, each by the receiver of the one before and with the path
      that it returned. The first one starts without a path. */
  ghost predicate IsChain(cs: seq<Context>) {
    && IsAllowedChain(cs)
    && (cs[0].hopPath.None? || cs[0].hopPath.value == [])
    && OriginOf(cs[0]) != "" && cs[0].senderNodeId != ""
    && (forall i :: 0 <= i < |cs| ==> cs[i].receiverNodeId != "")
  }

  /** The same without a condition on the first path or on the node ids. */
  ghost predicate IsAllowedChain(cs: seq<Context>) {
    && cs != []
    && (forall i :: 0 <= i < |cs| ==> Evaluate(cs[i]).refusal.None?)
    && (forall i :: 1 <= i < |cs| ==> Continues(cs[i - 1], cs[i]))
  }

  ghost predicate Continues(before: Context, c: Context) {
    c.senderNodeId == before.receiverNodeId
    && c.hopPath == Some(Evaluate(before).nextHopPath)
    && (c.originNodeId.None? || c.originNodeId == Some(Evaluate(before).originNodeId))
  }

  /** The nodes a chain passes through: the first sender, then every receiver. */
  function Visited(cs: seq<Context>): seq<NodeId>
    requires cs != []
  {
    [cs[0].senderNodeId] + seq(|cs|, i requires 0 <= i < |cs| => cs[i].receiverNodeId)
  }

  lemma StepExtendsPath(before: Context, c: Context)
    requires Continues(before, c)
    requires var d := Evaluate(before);
      d.nextHopPath != [] && d.nextHopPath[0] == d.originNodeId
      && (forall n :: n in d.nextHopPath ==> n != "")
    ensures Evaluate(c).hopPath == Evaluate(before).nextHopPath
    ensures Evaluate(c).originNodeId == Evaluate(before).originNodeId
  {
    var path := Evaluate(before).nextHopPath;
    NonEmptyIdentity(path);
    assert path[|path| - 1] == c.senderNodeId;
  }

  /** What the path returned by a handoff says about the chain behind it. */
  ghost predicate PathTells(cs: seq<Context>, d: Decision)
    requires cs != []
  {
    && NoRepeats(d.nextHopPath)
    && |cs| + 1 <= |d.nextHopPath| <= |cs| + 2
    && d.nextHopPath[|d.nextHopPath| - (|cs| + 1)..] == Visited(cs)
    && d.nextHopPath[0] == d.originNodeId
    && (forall n :: n in d.nextHopPath ==> n != "")
  }

  lemma FirstPath(c: Context)
    requires IsChain([c])
    ensures PathTells([c], Evaluate(c))
  {
    var origin := OriginOf(c);
    NonEmptyIdentity([origin]);
    var d := Evaluate(c);
    assert [c][0] == c;
    assert Visited([c]) == [c.senderNodeId, c.receiverNodeId];
    if origin == c.senderNodeId {
      assert d.nextHopPath == [origin, c.receiverNodeId];
    } else {
      assert d.nextHopPath == [origin, c.senderNodeId, c.receiverNodeId];
      assert d.nextHopPath[1..] == [c.senderNodeId, c.receiverNodeId];
    }
  }

  lemma NextPath(front: seq<Context>, c: Context)
    requires front != [] && PathTells(front, Evaluate(front[|front| - 1]))
    requires Continues(front[|front| - 1], c) && Evaluate(c).refusal.None? && c.receiverNodeId != ""
    ensures PathTells(front + [c], Evaluate(c))
  {
    hide Evaluate;
    var before := front[|front| - 1];
    StepExtendsPath(before, c);
    AllowedIsNew(c);
    var p := Evaluate(before).nextHopPath;
    var d := Evaluate(c);
    assert d.nextHopPath == p + [c.receiverNodeId];
    assert Visited(front + [c]) == Visited(front) + [c.receiverNodeId];
    assert d.nextHopPath[|d.nextHopPath| - (|front| + 2)..] == p[|p| - (|front| + 1)..] + [c.receiverNodeId];
  }

  lemma AllowedIsNew(c: Context)
    requires Evaluate(c).refusal.None?
    ensures var d := Evaluate(c);
      d.nextHopPath == d.hopPath + [c.receiverNodeId] && c.receiverNodeId !in d.hopPath && d.HopCount() <= d.maxHops
  {
  }

  /** The path returned by the last handoff of a chain ends with the nodes the chain
      visited, starts at the origin, and repeats nothing. */
  lemma {:induction false} ChainPath(cs: seq<Context>)
    requires IsChain(cs)
    ensures PathTells(cs, Evaluate(cs[|cs| - 1]))
    decreases |cs|
  {
    hide Evaluate, PathTells, Continues, OriginOf;
    if |cs| == 1 {
      assert cs == [cs[0]];
      FirstPath(cs[0]);
    } else {
      var front := cs[..|cs| - 1];
      assert front[|front| - 1] == cs[|cs| - 2];
      ChainPath(front);
      NextPath(front, cs[|cs| - 1]);
      assert front + [cs[|cs| - 1]] == cs;
    }
  }

  /** A chain of allowed handoffs visits no node twice and has at most as many hops
      as its last context permits. */
  lemma ChainsDoNotLoop(cs: seq<Context>)
    requires IsChain(cs)
    ensures NoRepeats(Visited(cs))
    ensures |cs| <= Evaluate(cs[|cs| - 1]).maxHops
  {
    hide Evaluate, Continues, OriginOf;
    ChainPath(cs);
    AllowedIsNew(cs[|cs| - 1]);
    var d := Evaluate(cs[|cs| - 1]);
    var tail := d.nextHopPath[|d.nextHopPath| - (|cs| + 1)..];
    forall i, j | 0 <= i < j < |tail| ensures tail[i] != tail[j] {
      var k := |d.nextHopPath| - (|cs| + 1);
      assert d.nextHopPath[k + i] != d.nextHopPath[k + j];
    }
  }

  // ----- chains through empty node ids -----

  lemma {:induction false} NonEmptyMembers(path: seq<NodeId>, n: NodeId)
    ensures n in NonEmpty(path) <==> n in path && n != ""
    decreases |path|
  {
    if path != [] {
      NonEmptyMembers(path[1..], n);
      assert path == [path[0]] + path[1..];
    }
  }

  /** A step keeps every node of the path it was given, the empty one excepted. */
  lemma StepRemembers(c: Context, n: NodeId)
    requires n != "" && (n == c.senderNodeId || (c.hopPath.Some? && n in c.hopPath.value))
    ensures n in Evaluate(c).hopPath
  {
    if n != c.senderNodeId {
      NonEmptyMembers(c.hopPath.value, n);
    }
  }

  lemma {:induction false} VisitedAreOnPath(cs: seq<Context>, n: NodeId)
    requires IsAllowedChain(cs) && n in Visited(cs) && n != ""
    ensures n in Evaluate(cs[|cs| - 1]).nextHopPath
    decreases |cs|
  {
    hide Evaluate;
    var c := cs[|cs| - 1];
    AllowedIsNew(c);
    if n != c.receiverNodeId {
      if |cs| == 1 {
        StepRemembers(c, n);
      } else {
        var front := cs[..|cs| - 1];
        assert Visited(cs) == Visited(front) + [c.receiverNodeId];
        assert Continues(cs[|cs| - 2], c);
        VisitedAreOnPath(front, n);
        StepRemembers(c, n);
      }
    }
  }

  /** Without any condition on the ids, a chain of allowed handoffs visits no node
      twice exactly when it visits the empty id at most once. */
  lemma OnlyTheEmptyIdRepeats(cs: seq<Context>)
    requires IsAllowedChain(cs)
    ensures NoRepeats(Visited(cs))
      <==> forall i, j :: 0 <= i < j < |Visited(cs)| ==> !(Visited(cs)[i] == "" && Visited(cs)[j] == "")
  {
    hide Evaluate, Continues;
    var v := Visited(cs);
    forall i, j | 0 <= i < j < |v| && v[i] == v[j] ensures v[i] == "" {
      if v[i] != "" {
        ReceiverIsNew(cs, i, j);
      }
    }
  }

  lemma ReceiverIsNew(cs: seq<Context>, i: nat, j: nat)
    requires IsAllowedChain(cs) && i < j < |Visited(cs)| && Visited(cs)[i] != ""
    ensures Visited(cs)[i] != Visited(cs)[j]
  {
    hide Evaluate;
    var c := cs[j - 1];
    var n := Visited(cs)[i];
    AllowedIsNew(c);
    if j == 1 {
      StepRemembers(c, n);
    } else {
      var front := cs[..j - 1];
      assert Visited(front)[i] == n;
      assert Continues(cs[j - 2], c);
      VisitedAreOnPath(front, n);
      StepRemembers(c, n);
    }
  }

  /** A chain of allowed handoffs that starts without a path. */
  ghost predicate StartsAfresh(cs: seq<Context>) {
    IsAllowedChain(cs) && (cs[0].hopPath.None? || cs[0].hopPath.value == [])
  }

  /** The origin, if it is not the first sender. */
  function Lead(cs: seq<Context>): seq<NodeId>
    requires cs != []
  {
    if OriginOf(cs[0]) == cs[0].senderNodeId then [] else [OriginOf(cs[0])]
  }

  /** What a path keeps of the nodes before its last one: the empty ids go, unless
      the origin is one. */
  function Kept(origin: NodeId, path: seq<NodeId>): seq<NodeId> {
    if origin == "" then path else NonEmpty(path)
  }

  /** How many of the nodes visited before the last one a path has lost. */
  function Forgotten(origin: NodeId, path: seq<NodeId>): nat {
    if origin == "" then 0 else multiset(path)[""]
  }

  lemma {:induction false} KeptSize(origin: NodeId, path: seq<NodeId>)
    ensures |Kept(origin, path)| == |path| - Forgotten(origin, path)
    decreases |path|
  {
    if path != [] {
      KeptSize(origin, path[1..]);
      assert path == [path[0]] + path[1..];
    }
  }

  /** The last node of a path that is not the empty id, which stands for none. */
  function LastNamed(path: seq<NodeId>): NodeId {
    if path == [] then ""
    else if path[|path| - 1] != "" then path[|path| - 1]
    else LastNamed(path[..|path| - 1])
  }

  lemma {:induction false} NonEmptyAppend(path: seq<NodeId>, n: NodeId)
    ensures NonEmpty(path + [n]) == NonEmpty(path) + NonEmpty([n])
    decreases |path|
  {
    if path == [] {
      assert path + [n] == [n];
    } else {
      assert (path + [n])[1..] == path[1..] + [n];
      NonEmptyAppend(path[1..], n);
    }
  }

  /** The path that a chain hands on: of the nodes it visited, all but the last two
      have lost their empty ids. An empty origin is the only one on its path. */
  ghost predicate PathForgets(cs: seq<Context>, d: Decision)
    requires cs != []
  {
    var v, n, origin := Visited(cs), |cs|, OriginOf(cs[0]);
    && d.nextHopPath == Lead(cs) + Kept(origin, v[..n - 1]) + [v[n - 1]] + [v[n]]
    && d.originNodeId == origin && d.nextHopPath[0] == origin
    && (origin == "" ==> "" !in d.nextHopPath[1..])
  }

  ghost predicate LeadsWith(lead: seq<NodeId>, path: seq<NodeId>, origin: NodeId) {
    if lead == [] then path != [] && path[0] == origin else lead == [origin]
  }

  /** Normalizing such a path drops the empty ids among the last two, the sender excepted. */
  lemma NormalizeForgets(lead: seq<NodeId>, front: seq<NodeId>, x: NodeId, sender: NodeId, origin: NodeId)
    requires LeadsWith(lead, front + [x], origin)
    requires var given := lead + Kept(origin, front) + [x] + [sender];
      given[0] == origin && (origin == "" ==> "" !in given[1..])
    ensures NormalizeHopPath(Some(lead + Kept(origin, front) + [x] + [sender]), sender, origin)
      == lead + Kept(origin, front + [x]) + [sender]
  {
    hide NonEmpty, NormalizeHopPath;
    var given := lead + Kept(origin, front) + [x] + [sender];
    if origin == "" {
      OneEmpty(given, sender);
      assert given == lead + (front + [x]) + [sender];
    } else {
      NormalizeDrops(lead, front, x, sender, origin);
    }
  }

  /** A path that is empty at its origin alone normalizes to itself. */
  lemma OneEmpty(given: seq<NodeId>, sender: NodeId)
    requires |given| >= 2 && given[0] == "" && "" !in given[1..] && given[|given| - 1] == sender
    ensures NormalizeHopPath(Some(given), sender, "") == given
  {
    NonEmptyIdentity(given[1..]);
    assert NonEmpty(given) == given[1..];
    assert given[1..][0] in given[1..];
    assert [""] + given[1..] == given;
  }

  lemma NormalizeDrops(lead: seq<NodeId>, front: seq<NodeId>, x: NodeId, sender: NodeId, origin: NodeId)
    requires origin != "" && LeadsWith(lead, front + [x], origin)
    ensures NormalizeHopPath(Some(lead + NonEmpty(front) + [x] + [sender]), sender, origin)
      == lead + NonEmpty(front + [x]) + [sender]
  {
    var given := lead + NonEmpty(front) + [x] + [sender];
    var p := lead + NonEmpty(front + [x]);
    hide NonEmpty, NormalizeHopPath;
    NonEmptyAppend(front, x);
    NonEmptyOf(lead + NonEmpty(front), x, sender);
    NonEmptyTwice(lead, front, origin);
    assert lead + NonEmpty(front) + NonEmpty([x]) == lead + (NonEmpty(front) + NonEmpty([x]));
    assert NonEmpty(given) == p + NonEmpty([sender]);
    FirstIsOrigin(lead, front + [x], origin);
    OneNonEmpty(sender);
    LastNotEmpty(lead, front + [x], origin);
    Close(given, p, sender, origin);
  }

  lemma Close(given: seq<NodeId>, p: seq<NodeId>, sender: NodeId, origin: NodeId)
    requires given != [] && NonEmpty(given) == p + (if sender == "" then [] else [sender])
    requires p != [] && p[0] == origin && p[|p| - 1] != ""
    ensures NormalizeHopPath(Some(given), sender, origin) == p + [sender]
  {
    hide NonEmpty;
  }

  lemma OneNonEmpty(n: NodeId)
    ensures NonEmpty([n]) == if n == "" then [] else [n]
  {
    assert [n][1..] == [];
  }

  lemma LastNotEmpty(lead: seq<NodeId>, path: seq<NodeId>, origin: NodeId)
    requires origin != "" && (lead == [] || lead == [origin])
    ensures var p := lead + NonEmpty(path); p != [] ==> p[|p| - 1] != ""
  {
    NonEmptyHasNone(path);
  }

  lemma NonEmptyOf(path: seq<NodeId>, x: NodeId, y: NodeId)
    ensures NonEmpty(path + [x] + [y]) == NonEmpty(path) + NonEmpty([x]) + NonEmpty([y])
  {
    NonEmptyAppend(path + [x], y);
    NonEmptyAppend(path, x);
  }

  lemma {:induction false} NonEmptyHasNone(path: seq<NodeId>)
    ensures forall n :: n in NonEmpty(path) ==> n != ""
    decreases |path|
  {
    if path != [] {
      NonEmptyHasNone(path[1..]);
    }
  }

  lemma NonEmptyTwice(lead: seq<NodeId>, path: seq<NodeId>, origin: NodeId)
    requires origin != "" && (lead == [] || lead == [origin])
    ensures NonEmpty(lead + NonEmpty(path)) == lead + NonEmpty(path)
  {
    NonEmptyHasNone(path);
    NonEmptyIdentity(lead + NonEmpty(path));
  }

  lemma FirstIsOrigin(lead: seq<NodeId>, v: seq<NodeId>, origin: NodeId)
    requires v != [] && origin != "" && LeadsWith(lead, v, origin)
    ensures var p := lead + NonEmpty(v); p != [] && p[0] == origin
  {
  }

  lemma {:induction false} ForgetfulPath(cs: seq<Context>)
    requires StartsAfresh(cs)
    ensures PathForgets(cs, Evaluate(cs[|cs| - 1]))
    decreases |cs|
  {
    hide Evaluate, Continues;
    var c := cs[|cs| - 1];
    AllowedIsNew(c);
    var v := Visited(cs);
    if |cs| == 1 {
      FirstForgets(c);
      assert v[..0] == [];
    } else {
      var front := cs[..|cs| - 1];
      assert Continues(front[|front| - 1], c);
      ForgetfulPath(front);
      assert front + [c] == cs;
      StepForgets(front, c);
    }
  }

  lemma StepForgets(front: seq<Context>, c: Context)
    requires front != [] && PathForgets(front, Evaluate(front[|front| - 1]))
    requires Continues(front[|front| - 1], c) && Evaluate(c).refusal.None?
    ensures PathForgets(front + [c], Evaluate(c))
  {
    hide Evaluate, Continues, Kept, PathForgets;
    ContinuedPath(front, c);
    AllowedIsNew(c);
    assert Visited(front + [c]) == Visited(front) + [c.receiverNodeId];
    PathForgetsAgain(front, c, Evaluate(c));
  }

  lemma PathForgetsAgain(front: seq<Context>, c: Context, d: Decision)
    requires front != [] && |Visited(front)| == |front| + 1
    requires Visited(front + [c]) == Visited(front) + [c.receiverNodeId]
    requires var w, n, origin := Visited(front), |front|, OriginOf(front[0]);
      && d.nextHopPath == d.hopPath + [c.receiverNodeId] && c.receiverNodeId !in d.hopPath
      && d.hopPath == Lead(front) + Kept(origin, w[..n]) + [w[n]] && d.originNodeId == origin
      && d.hopPath[0] == origin && (origin == "" ==> "" !in d.hopPath[1..])
    ensures PathForgets(front + [c], d)
  {
    hide Kept, Visited, OriginOf;
    var w, v, n := Visited(front), Visited(front + [c]), |front|;
    assert (front + [c])[0] == front[0];
    assert w[..n] == v[..n] && v[n] == w[n] && v[n + 1] == c.receiverNodeId;
    assert d.nextHopPath[1..] == d.hopPath[1..] + [c.receiverNodeId];
  }

  /** The path of a handoff that continues a chain, whether it is allowed or not. */
  lemma ContinuedPath(cs: seq<Context>, c: Context)
    requires cs != [] && PathForgets(cs, Evaluate(cs[|cs| - 1])) && Continues(cs[|cs| - 1], c)
    ensures var v, n, origin, d := Visited(cs), |cs|, OriginOf(cs[0]), Evaluate(c);
      && d.hopPath == Lead(cs) + Kept(origin, v[..n]) + [v[n]] && c.senderNodeId == v[n]
      && d.originNodeId == origin && d.hopPath[0] == origin && (origin == "" ==> "" !in d.hopPath[1..])
  {
    hide Evaluate, Continues, Kept, NormalizeHopPath, OriginOf;
    var v, n, origin := Visited(cs), |cs|, OriginOf(cs[0]);
    StepSender(cs, c);
    StepPath(cs[n - 1], c);
    assert v[..n - 1] + [v[n - 1]] == v[..n];
    assert LeadsWith(Lead(cs), v[..n], origin);
    NormalizeForgets(Lead(cs), v[..n - 1], v[n - 1], v[n], origin);
    if origin == "" {
      EmptyOrigin(Lead(cs), v[..n - 1], v[n - 1], v[n]);
    } else {
      KeptStart(Lead(cs), v[..n], origin);
    }
  }

  lemma EmptyOrigin(lead: seq<NodeId>, front: seq<NodeId>, x: NodeId, sender: NodeId)
    ensures lead + Kept("", front) + [x] + [sender] == lead + Kept("", front + [x]) + [sender]
  {
  }

  lemma KeptStart(lead: seq<NodeId>, v: seq<NodeId>, origin: NodeId)
    requires v != [] && origin != "" && LeadsWith(lead, v, origin)
    ensures var p := lead + Kept(origin, v); p != [] && p[0] == origin
  {
    FirstIsOrigin(lead, v, origin);
  }

  lemma StepSender(front: seq<Context>, c: Context)
    requires front != [] && Continues(front[|front| - 1], c)
    ensures var w := Visited(front); w[|w| - 1] == c.senderNodeId
  {
  }

  lemma StepPath(before: Context, c: Context)
    requires Continues(before, c) && Evaluate(before).nextHopPath != []
    requires c.originNodeId.None? ==> Evaluate(before).nextHopPath[0] == Evaluate(before).originNodeId
    ensures Evaluate(c).originNodeId == Evaluate(before).originNodeId
    ensures Evaluate(c).hopPath
      == NormalizeHopPath(Some(Evaluate(before).nextHopPath), c.senderNodeId, Evaluate(before).originNodeId)
  {
  }

  lemma FirstForgets(c: Context)
    requires StartsAfresh([c])
    ensures PathForgets([c], Evaluate(c))
  {
    hide Visited;
    OneNonEmpty(OriginOf(c));
    FirstVisited(c);
    assert NonEmpty([]) == [];
  }

  lemma FirstVisited(c: Context)
    ensures Visited([c]) == [c.senderNodeId, c.receiverNodeId] && Visited([c])[..0] == []
  {
  }

  /** The hops a chain makes against the hops the guard counts: the origin is counted
      if it is not the first sender, and the empty ids visited before the last sender
      are not. */
  lemma HopsCounted(cs: seq<Context>)
    requires StartsAfresh(cs)
    ensures var d := Evaluate(cs[|cs| - 1]);
      && d.HopCount() == |cs| + |Lead(cs)| - Forgotten(OriginOf(cs[0]), Visited(cs)[..|cs| - 1])
      && d.HopCount() <= d.maxHops
  {
    hide Evaluate, Kept, Forgotten;
    ForgetfulPath(cs);
    AllowedIsNew(cs[|cs| - 1]);
    KeptSize(OriginOf(cs[0]), Visited(cs)[..|cs| - 1]);
  }

  /** Every outcome of a handoff that continues a chain, told before the call from the
      nodes visited, the origin and the limit, whatever the ids. */
  lemma RefusalsForetold(cs: seq<Context>, c: Context)
    requires StartsAfresh(cs) && Continues(cs[|cs| - 1], c)
    ensures var v, n, r := Visited(cs), |cs|, c.receiverNodeId;
      var origin, maxHops := OriginOf(cs[0]), c.maxHops.GetOr(DEFAULT_MAX_HANDOFF_HOPS);
      var known := r == origin || (r in v && r != "");
      var within := n + 1 + |Lead(cs)| - Forgotten(origin, v[..n]) <= maxHops;
      var back := r == LastNamed(Lead(cs) + v[..n]);
      var refusal := Evaluate(c).refusal;
      && (refusal == Some(SameSenderReceiver) <==> r == v[n])
      && (refusal == Some(MaxHopsExceeded) <==> r != v[n] && !within)
      && (refusal == Some(DirectLoop) <==> r != v[n] && within && back)
      && (refusal == Some(IndirectLoop) <==> r != v[n] && within && known && !back)
      && (refusal.None? <==> r != v[n] && within && !known)
  {
    hide Evaluate, Kept, Forgotten, Continues, NormalizeHopPath, LastNamed;
    var v, n, origin := Visited(cs), |cs|, OriginOf(cs[0]);
    ForgetfulPath(cs);
    ContinuedPath(cs, c);
    KeptSize(origin, v[..n]);
    KnownIsKept(Lead(cs), v[..n], origin, c.receiverNodeId);
    LastKept(Lead(cs), v[..n], v[n], origin);
    RefusalOf(c, Lead(cs) + Kept(origin, v[..n]), v[n]);
    assert v == v[..n] + [v[n]];
  }

  lemma RefusalOf(c: Context, before: seq<NodeId>, sender: NodeId)
    requires before != [] && Evaluate(c).hopPath == before + [sender] && c.senderNodeId == sender
    ensures var r, refusal := c.receiverNodeId, Evaluate(c).refusal;
      var within := |before| + 1 <= c.maxHops.GetOr(DEFAULT_MAX_HANDOFF_HOPS);
      && (refusal == Some(SameSenderReceiver) <==> r == sender)
      && (refusal == Some(MaxHopsExceeded) <==> r != sender && !within)
      && (refusal == Some(DirectLoop) <==> r != sender && within && r == before[|before| - 1])
      && (refusal == Some(IndirectLoop) <==> r != sender && within && r in before && r != before[|before| - 1])
      && (refusal.None? <==> r != sender && within && r !in before)
  {
    hide NormalizeHopPath;
  }

  lemma KnownIsKept(lead: seq<NodeId>, v: seq<NodeId>, origin: NodeId, r: NodeId)
    requires LeadsWith(lead, v, origin)
    ensures r in lead + Kept(origin, v) <==> r == origin || (r in v && r != "")
  {
    hide NonEmpty;
    NonEmptyMembers(v, r);
  }

  /** The last node that a path kept is the last one visited that has a name. */
  lemma LastKept(lead: seq<NodeId>, v: seq<NodeId>, sender: NodeId, origin: NodeId)
    requires LeadsWith(lead, v, origin) && v != []
    requires origin == "" ==> "" !in (lead + Kept(origin, v) + [sender])[1..]
    ensures var p := lead + Kept(origin, v); p != [] && p[|p| - 1] == LastNamed(lead + v)
  {
    hide NonEmpty, LastNamed;
    if origin == "" {
      assert (lead + v + [sender])[1..] == (lead + v)[1..] + [sender];
      LastOfOneEmpty(lead + v);
    } else {
      LastOfNonEmpty(lead + v);
      NonEmptyLead(lead, v, origin);
      FirstIsOrigin(lead, v, origin);
    }
  }

  lemma NonEmptyLead(lead: seq<NodeId>, v: seq<NodeId>, origin: NodeId)
    requires origin != "" && (lead == [] || lead == [origin])
    ensures NonEmpty(lead + v) == lead + NonEmpty(v)
  {
    assert lead + v == if lead == [] then v else [origin] + v;
  }

  lemma LastOfOneEmpty(p: seq<NodeId>)
    requires p != [] && p[0] == "" && "" !in p[1..]
    ensures LastNamed(p) == p[|p| - 1]
  {
    if |p| > 1 {
      assert p[|p| - 1] == p[1..][|p| - 2];
    }
  }

  lemma {:induction false} LastOfNonEmpty(path: seq<NodeId>)
    ensures var p := NonEmpty(path); LastNamed(path) == if p == [] then "" else p[|p| - 1]
    decreases |path|
  {
    if path != [] {
      var front, x := path[..|path| - 1], path[|path| - 1];
      assert path == front + [x];
      NonEmptyAppend(front, x);
      OneNonEmpty(x);
      LastOfNonEmpty(front);
    }
  }

  /** The guard lets a handoff pass that exceeds the limit exactly when the receiver is
      new to it and the chain has forgotten enough of the nodes it visited. */
  lemma OneHopTooMany(cs: seq<Context>, c: Context)
    requires StartsAfresh(cs) && Continues(cs[|cs| - 1], c)
    ensures var v, n, r := Visited(cs), |cs|, c.receiverNodeId;
      var origin, maxHops := OriginOf(cs[0]), c.maxHops.GetOr(DEFAULT_MAX_HANDOFF_HOPS);
      Evaluate(c).refusal.None? && n + 1 > maxHops
      <==> r != v[n] && r != origin && (r in v ==> r == "")
           && n + 1 > maxHops && Forgotten(origin, v[..n]) >= n + 1 - maxHops + |Lead(cs)|
  {
    hide Evaluate, Forgotten, Continues, Visited, OriginOf;
    RefusalsForetold(cs, c);
  }

  /** What does not hold for empty node ids: they are dropped from the path, so a
      chain can come back to them, and can make more hops than its limit. */
  lemma EmptyIdsAreForgotten()
    ensures var c0 := Context("a", "", None, None, Some(2));
      var c1 := Context("", "b", None, Some(Evaluate(c0).nextHopPath), Some(2));
      var c2 := Context("b", "", None, Some(Evaluate(c1).nextHopPath), Some(2));
      var cs := [c0, c1, c2];
      StartsAfresh(cs) && !NoRepeats(Visited(cs)) && |cs| > Evaluate(c2).maxHops
  {
    hide Evaluate;
    FirstForgetful();
    SecondForgetful();
    ThirdForgetful();
    var c0 := Context("a", "", None, None, Some(2));
    var c1 := Context("", "b", None, Some(["a", ""]), Some(2));
    var c2 := Context("b", "", None, Some(["a", "", "b"]), Some(2));
    var v := Visited([c0, c1, c2]);
    assert v[1] == v[3];
    assert Continues(c0, c1) && Continues(c1, c2);
  }

  lemma FirstForgetful()
    ensures Evaluate(Context("a", "", None, None, Some(2))) == Decision(None, "a", ["a"], ["a", ""], 2)
  {
    assert NonEmpty(["a"]) == ["a"];
    assert NormalizeHopPath(None, "a", "a") == ["a"];
  }

  lemma SecondForgetful()
    ensures Evaluate(Context("", "b", None, Some(["a", ""]), Some(2)))
      == Decision(None, "a", ["a", ""], ["a", "", "b"], 2)
  {
    assert ["a", ""][1..] == [""] && NonEmpty([""]) == [];
    assert NonEmpty(["a", ""]) == ["a"];
    assert NormalizeHopPath(Some(["a", ""]), "", "a") == ["a", ""];
  }

  lemma ThirdForgetful()
    ensures Evaluate(Context("b", "", None, Some(["a", "", "b"]), Some(2)))
      == Decision(None, "a", ["a", "b"], ["a", "b", ""], 2)
  {
    assert ["a", "", "b"][1..] == ["", "b"] && ["", "b"][1..] == ["b"] && NonEmpty(["b"]) == ["b"];
    assert NonEmpty(["", "b"]) == ["b"];
    assert NonEmpty(["a", "", "b"]) == ["a", "b"];
    assert NormalizeHopPath(Some(["a", "", "b"]), "b", "a") == ["a", "b"];
  }

  /** A chain through nonempty ids forgets nothing. */
  lemma ChainForgetsNothing(cs: seq<Context>)
    requires IsChain(cs)
    ensures var v, n, origin := Visited(cs), |cs|, OriginOf(cs[0]);
      StartsAfresh(cs) && "" !in v && Forgotten(origin, v[..n]) == 0
      && LastNamed(Lead(cs) + v[..n]) == v[n - 1] == cs[n - 1].senderNodeId
  {
    hide Evaluate, OriginOf, NormalizeHopPath;
    var v, n := Visited(cs), |cs|;
    assert forall i :: 0 < i < |v| ==> v[i] == cs[i - 1].receiverNodeId;
    assert "" !in v[..n];
    if n > 1 {
      assert Continues(cs[n - 2], cs[n - 1]);
    }
    assert (Lead(cs) + v[..n])[|Lead(cs)| + n - 1] == v[n - 1];
  }

  /** The reason, told from the chain of nonempty ids that leads to a handoff: a return
      to the node before is a direct loop, a return to the origin or to any node before
      that is an indirect one, and every other handoff within the limit is allowed. */
  lemma ChainRefusals(cs: seq<Context>, c: Context)
    requires IsChain(cs) && Continues(cs[|cs| - 1], c)
    ensures var last := cs[|cs| - 1];
      var r, refusal := c.receiverNodeId, Evaluate(c).refusal;
      var known := r in Visited(cs) || r == OriginOf(cs[0]);
      var within := |cs| + 1 + |Lead(cs)| <= c.maxHops.GetOr(DEFAULT_MAX_HANDOFF_HOPS);
      && (refusal == Some(SameSenderReceiver) <==> r == c.senderNodeId)
      && (refusal == Some(MaxHopsExceeded) <==> r != c.senderNodeId && !within)
      && (refusal == Some(DirectLoop) <==> r == last.senderNodeId && r != c.senderNodeId && within)
      && (refusal == Some(IndirectLoop) <==> known && r != c.senderNodeId && r != last.senderNodeId && within)
      && (refusal.None? <==> !known && within)
  {
    ChainForgetsNothing(cs);
    StepSender(cs, c);
    RefusalsForetold(cs, c);
    hide Evaluate, Visited, Continues, IsChain, OriginOf, Forgotten, LastNamed;
  }

  /** Whatever path a context brings along, a handoff that is not stopped by the limit
      is refused exactly when the receiver is the sender, the origin or a named node
      of that path. */
  lemma LoopReasons(c: Context)
    requires Evaluate(c).refusal != Some(MaxHopsExceeded)
    ensures var r, given := c.receiverNodeId, c.hopPath.GetOr([]);
      Evaluate(c).refusal.Some? <==> r == c.senderNodeId || r == OriginOf(c) || (r != "" && r in given)
  {
    hide NonEmpty, OriginOf;
    var r, origin, given := c.receiverNodeId, OriginOf(c), c.hopPath.GetOr([]);
    NonEmptyMembers(given, r);
    NonEmptyMembers([origin], r);
  }
}
