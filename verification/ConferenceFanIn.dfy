/** Fan-in of a conference: who took part, what they contributed, and whether the
    conference may be closed. */
module ConferenceFanIns {
  import opened Basics

  type NodeId = string

  datatype Role = Chair | Presenter | Reviewer | Observer

  datatype Status = Joined | Contributing | Idle | Left | Blocked | TimedOut

  datatype Category = Analysis | DecisionMade | Question | Artifact | Correction

  datatype Participant = Participant(role: Role, status: Status, joinedAt: int, lastActiveAt: int, leftAt: Option<int>)

  datatype Contribution = Contribution(id: string, participantId: NodeId, category: Category, createdAt: int)

  datatype Config = Config(
    minQuorum: int, requireChairContribution: bool, idleTimeoutMs: int, maxContributionsPerParticipant: Option<int>)

  datatype Decision = Ready | Waiting | DecisionBlocked | Failed

  datatype Reason =
    | NoParticipants
    | ChairMissing
    | SomeBlocked(n: nat)
    | SomeTimedOut(n: nat)
    | QuorumUnreachable(available: nat, left: nat)
    | QuorumShort(available: nat)
    | NoContributions(available: nat)
    | ChairSilent(chair: NodeId)
    | StillContributing(n: nat)
    | Awaiting(n: nat)
    | AllIn(n: nat)

  datatype Signal =
    | SilentChair(node: NodeId) | IsBlocked(node: NodeId) | HasTimedOut(node: NodeId) | IsAwaited(node: NodeId)

  /** The source's verdict also repeats the revision of the conference. */
  datatype Verdict = Verdict(
    decision: Decision,
    reason: Reason,
    total: nat,
    participantCounts: map<Status, nat>,
    contributionTotal: nat,
    contributionCounts: map<Category, nat>,
    signals: set<Signal>,
    decidedAt: int)

  datatype Conference = Conference(
    participants: map<NodeId, Participant>,
    contributions: seq<Contribution>,
    keys: set<string>,
    revision: nat,
    lastDecisionAt: int)

  /** 1 January 2026, in milliseconds. */
  const EPOCH_MS: int := 1767225600000

  predicate IsTerminal(s: Status) { s == Left || s == Blocked || s == TimedOut }

  // ----- idle participants -----

  predicate TimesOut(p: Participant, at: int, cfg: Config) {
    !IsTerminal(p.status) && p.status != Idle && at - p.lastActiveAt >= cfg.idleTimeoutMs
  }

  function AfterTimeout(p: Participant, at: int, cfg: Config): Participant {
    if TimesOut(p, at, cfg) then p.(status := TimedOut, leftAt := Some(at), lastActiveAt := at) else p
  }

  /** The participants as they stand at a time. */
  function Effective(parts: map<NodeId, Participant>, at: int, cfg: Config): (r: map<NodeId, Participant>)
    ensures r.Keys == parts.Keys
  {
    map n | n in parts :: AfterTimeout(parts[n], at, cfg)
  }

  // ----- counting -----

  function WithStatus(parts: map<NodeId, Participant>, among: set<NodeId>, s: Status): set<NodeId> {
    set n | n in among && n in parts && parts[n].status == s
  }

  function NoneCounted(): map<Status, nat> {
    map[Joined := 0, Contributing := 0, Idle := 0, Left := 0, Blocked := 0, TimedOut := 0]
  }

  ghost predicate Counts(parts: map<NodeId, Participant>, among: set<NodeId>, counts: map<Status, nat>) {
    (forall s: Status :: s in counts) && (forall s: Status :: counts[s] == |WithStatus(parts, among, s)|)
  }

  lemma CountNone(parts: map<NodeId, Participant>)
    ensures Counts(parts, {}, NoneCounted())
  {
    forall s: Status ensures s in NoneCounted() {
      match s case Joined => case Contributing => case Idle => case Left => case Blocked => case TimedOut =>
    }
    assert forall s: Status :: WithStatus(parts, {}, s) == {};
  }

  lemma CountOne(parts: map<NodeId, Participant>, among: set<NodeId>, counts: map<Status, nat>, n: NodeId)
    requires Counts(parts, among, counts) && n in parts && n !in among
    ensures var s := parts[n].status; s in counts && Counts(parts, among + {n}, counts[s := counts[s] + 1])
  {
    forall s: Status
      ensures |WithStatus(parts, among + {n}, s)|
        == |WithStatus(parts, among, s)| + (if parts[n].status == s then 1 else 0)
    {
      var before := WithStatus(parts, among, s);
      assert WithStatus(parts, among + {n}, s) == if parts[n].status == s then before + {n} else before;
    }
  }

  /** The statuses partition the participants. */
  lemma CountsAddUp(parts: map<NodeId, Participant>, counts: map<Status, nat>)
    requires Counts(parts, parts.Keys, counts)
    ensures counts[Joined] + counts[Contributing] + counts[Idle] + counts[Left] + counts[Blocked] + counts[TimedOut]
      == |parts|
  {
    hide WithStatus;
    var all := parts.Keys;
    StatusesPartition(parts);
    AddSix(WithStatus(parts, all, Joined), WithStatus(parts, all, Contributing), WithStatus(parts, all, Idle),
           WithStatus(parts, all, Left), WithStatus(parts, all, Blocked), WithStatus(parts, all, TimedOut));
    assert |parts| == |all|;
  }

  lemma StatusesPartition(parts: map<NodeId, Participant>)
    ensures var all := parts.Keys;
      && WithStatus(parts, all, Joined) + WithStatus(parts, all, Contributing) + WithStatus(parts, all, Idle)
         + (WithStatus(parts, all, Left) + WithStatus(parts, all, Blocked) + WithStatus(parts, all, TimedOut)) == all
      && forall s: Status, t: Status :: s != t ==> WithStatus(parts, all, s) !! WithStatus(parts, all, t)
  {
    var all := parts.Keys;
    forall n | n in all
      ensures n in WithStatus(parts, all, Joined) || n in WithStatus(parts, all, Contributing)
        || n in WithStatus(parts, all, Idle) || n in WithStatus(parts, all, Left)
        || n in WithStatus(parts, all, Blocked) || n in WithStatus(parts, all, TimedOut)
    {
      match parts[n].status
      case Joined => case Contributing => case Idle => case Left => case Blocked => case TimedOut =>
    }
  }

  lemma AddThree<T>(a: set<T>, b: set<T>, c: set<T>)
    requires a !! b && a !! c && b !! c
    ensures |a + b + c| == |a| + |b| + |c|
  {
    assert |a + b| == |a| + |b|;
  }

  lemma AddSix<T>(a: set<T>, b: set<T>, c: set<T>, d: set<T>, e: set<T>, f: set<T>)
    requires a !! b && a !! c && a !! d && a !! e && a !! f && b !! c && b !! d && b !! e && b !! f
    requires c !! d && c !! e && c !! f && d !! e && d !! f && e !! f
    ensures |a + b + c + (d + e + f)| == |a| + |b| + |c| + |d| + |e| + |f|
  {
    AddThree(a, b, c);
    AddThree(d, e, f);
    assert a + b + c !! d + e + f;
  }

  function CountCategory(cs: seq<Contribution>, k: Category): nat {
    if cs == [] then 0 else CountCategory(cs[..|cs| - 1], k) + if cs[|cs| - 1].category == k then 1 else 0
  }

  function CategoryCounts(cs: seq<Contribution>): map<Category, nat> {
    map[Analysis := CountCategory(cs, Analysis), DecisionMade := CountCategory(cs, DecisionMade),
        Question := CountCategory(cs, Question), Artifact := CountCategory(cs, Artifact),
        Correction := CountCategory(cs, Correction)]
  }

  function CountBy(cs: seq<Contribution>, who: NodeId): nat {
    if cs == [] then 0 else CountBy(cs[..|cs| - 1], who) + if cs[|cs| - 1].participantId == who then 1 else 0
  }

  predicate HasContribution(cs: seq<Contribution>, who: NodeId) {
    exists c :: c in cs && c.participantId == who
  }

  // ----- the first chair -----

  /** Node ids in dictionary order. */
  predicate Before(a: NodeId, b: NodeId) {
    a == [] || (b != [] && (a[0] < b[0] || (a[0] == b[0] && Before(a[1..], b[1..]))))
  }

  lemma {:induction false} BeforeAntisymmetric(a: NodeId, b: NodeId)
    requires Before(a, b) && Before(b, a)
    ensures a == b
  {
    if a != [] {
      BeforeAntisymmetric(a[1..], b[1..]);
    }
  }

  lemma {:induction false} BeforeTotal(a: NodeId, b: NodeId)
    ensures Before(a, b) || Before(b, a)
  {
    if a != [] && b != [] {
      BeforeTotal(a[1..], b[1..]);
    }
  }

  lemma {:induction false} BeforeTransitive(a: NodeId, b: NodeId, c: NodeId)
    requires Before(a, b) && Before(b, c)
    ensures Before(a, c)
  {
    if a != [] && a[0] == b[0] == c[0] {
      BeforeTransitive(a[1..], b[1..], c[1..]);
    }
  }

  predicate IsChair(parts: map<NodeId, Participant>, n: NodeId) {
    n in parts && parts[n].role == Chair
  }

  ghost predicate IsFirstChair(parts: map<NodeId, Participant>, c: NodeId) {
    IsChair(parts, c) && forall d :: IsChair(parts, d) ==> Before(c, d)
  }

  ghost function FirstChair(parts: map<NodeId, Participant>): Option<NodeId> {
    if exists c :: IsFirstChair(parts, c) then
      var c :| IsFirstChair(parts, c);
      Some(c)
    else None
  }

  lemma FirstChairIs(parts: map<NodeId, Participant>, c: NodeId)
    requires IsFirstChair(parts, c)
    ensures FirstChair(parts) == Some(c)
  {
    var d := FirstChair(parts).value;
    BeforeAntisymmetric(c, d);
  }

  method FindChair(parts: map<NodeId, Participant>) returns (chair: Option<NodeId>)
    ensures chair == FirstChair(parts)
    ensures chair.None? <==> forall n :: !IsChair(parts, n)
    ensures chair.Some? ==> IsFirstChair(parts, chair.value)
  {
    chair := None;
    var rest := parts.Keys;
    while rest != {}
      invariant rest <= parts.Keys
      invariant chair.None? ==> forall n :: IsChair(parts, n) ==> n in rest
      invariant chair.Some? ==> IsChair(parts, chair.value)
      invariant chair.Some? ==> forall n :: IsChair(parts, n) && n !in rest ==> Before(chair.value, n)
      decreases rest
    {
      var n :| n in rest;
      if parts[n].role == Chair {
        BeforeTotal(n, n);
        if chair.None? {
          chair := Some(n);
        } else {
          BeforeTotal(chair.value, n);
          if !Before(chair.value, n) {
            forall m | IsChair(parts, m) && m !in rest ensures Before(n, m) {
              BeforeTransitive(n, chair.value, m);
            }
            chair := Some(n);
          }
        }
      }
      rest := rest - {n};
    }
    if chair.Some? {
      FirstChairIs(parts, chair.value);
    }
  }

  // ----- the verdict -----

  function Available(parts: map<NodeId, Participant>): set<NodeId> {
    set n | n in parts && !IsTerminal(parts[n].status)
  }

  /** Nothing more is expected of the participant. */
  predicate IsSettled(p: Participant, hasContributed: bool) {
    p.status == Idle || IsTerminal(p.status) || (hasContributed && p.status != Contributing)
  }

  function AwaitedOf(parts: map<NodeId, Participant>, cs: seq<Contribution>): set<NodeId> {
    set n | n in parts && !IsTerminal(parts[n].status) && !IsSettled(parts[n], HasContribution(cs, n))
  }

  function Judge(parts: map<NodeId, Participant>, counts: map<Status, nat>, chair: Option<NodeId>,
                 cs: seq<Contribution>, categories: map<Category, nat>, cfg: Config, at: int): Verdict
    requires forall s: Status :: s in counts
  {
    var verdict := (d, r, signals) => Verdict(d, r, |parts|, counts, |cs|, categories, signals, at);
    if |parts| == 0 then
      Verdict(Waiting, NoParticipants, 0, NoneCounted(), 0, CategoryCounts([]), {}, at)
    else if cfg.requireChairContribution && chair.None? then verdict(DecisionBlocked, ChairMissing, {})
    else
      var chairIsSilent := cfg.requireChairContribution && chair.Some? && !HasContribution(cs, chair.value);
      var first := if chairIsSilent then {SilentChair(chair.value)} else {};
      var available := |Available(parts)|;
      if counts[Blocked] > 0 then
        verdict(DecisionBlocked, SomeBlocked(counts[Blocked]),
                first + set n | n in parts && parts[n].status == Blocked :: IsBlocked(n))
      else if counts[TimedOut] > 0 then
        verdict(DecisionBlocked, SomeTimedOut(counts[TimedOut]),
                first + set n | n in parts && parts[n].status == TimedOut :: HasTimedOut(n))
      else if available < cfg.minQuorum && counts[Left] > 0 then
        verdict(Failed, QuorumUnreachable(available, counts[Left]), first)
      else if available < cfg.minQuorum then verdict(Waiting, QuorumShort(available), first)
      else if |cs| == 0 then verdict(Waiting, NoContributions(available), first)
      else if chairIsSilent then verdict(Waiting, ChairSilent(chair.value), first)
      else
        var awaited := AwaitedOf(parts, cs);
        if |awaited| > 0 then
          var busy := |set n | n in awaited && n in parts && parts[n].status == Contributing|;
          verdict(Waiting, if busy > 0 then StillContributing(busy) else Awaiting(|awaited|),
                  first + set n | n in awaited :: IsAwaited(n))
        else verdict(Ready, AllIn(|cs|), first)
  }

  function CountsOf(parts: map<NodeId, Participant>): map<Status, nat> {
    map[Joined := |WithStatus(parts, parts.Keys, Joined)|,
        Contributing := |WithStatus(parts, parts.Keys, Contributing)|,
        Idle := |WithStatus(parts, parts.Keys, Idle)|,
        Left := |WithStatus(parts, parts.Keys, Left)|,
        Blocked := |WithStatus(parts, parts.Keys, Blocked)|,
        TimedOut := |WithStatus(parts, parts.Keys, TimedOut)|]
  }

  /** There is only one right count. */
  lemma CountsHold(parts: map<NodeId, Participant>)
    ensures forall s: Status :: s in CountsOf(parts)
    ensures forall counts :: Counts(parts, parts.Keys, counts) <==> counts == CountsOf(parts)
  {
    forall s: Status ensures s in CountsOf(parts) && CountsOf(parts)[s] == |WithStatus(parts, parts.Keys, s)| {
      match s case Joined => case Contributing => case Idle => case Left => case Blocked => case TimedOut =>
    }
    forall counts | Counts(parts, parts.Keys, counts) ensures counts == CountsOf(parts) {
      assert counts.Keys == CountsOf(parts).Keys;
    }
  }

  /** Without a time nobody times out and the last decision time is shown. */
  ghost function VerdictOf(s: Conference, cfg: Config, asOf: Option<int>): Verdict {
    var at := asOf.GetOr(s.lastDecisionAt);
    var parts := if asOf.Some? then Effective(s.participants, at, cfg) else s.participants;
    CountsHold(parts);
    Judge(parts, CountsOf(parts), FirstChair(parts), s.contributions, CategoryCounts(s.contributions), cfg, at)
  }

  /** Some participant is in a status. */
  predicate Someone(parts: map<NodeId, Participant>, s: Status) {
    exists n :: n in parts && parts[n].status == s
  }

  ghost predicate ChairIsHeard(parts: map<NodeId, Participant>, cs: seq<Contribution>, cfg: Config) {
    cfg.requireChairContribution ==> exists c :: IsFirstChair(parts, c) && HasContribution(cs, c)
  }

  lemma CountIsZero(parts: map<NodeId, Participant>, s: Status)
    ensures s in CountsOf(parts) && (CountsOf(parts)[s] > 0 <==> Someone(parts, s))
  {
    CountsHold(parts);
    var those := WithStatus(parts, parts.Keys, s);
    if n :| n in parts && parts[n].status == s {
      assert n in those;
    }
    if those != {} {
      var n :| n in those;
    }
  }

  /** The four decisions, told from the participants alone. */
  lemma DecisionTable(s: Conference, cfg: Config, asOf: Option<int>)
    ensures var parts := if asOf.Some? then Effective(s.participants, asOf.value, cfg) else s.participants;
      var d := VerdictOf(s, cfg, asOf).decision;
      var open := |Available(parts)|;
      && (d == Ready <==>
            && parts != map[] && !Someone(parts, Blocked) && !Someone(parts, TimedOut)
            && open >= cfg.minQuorum && s.contributions != [] && ChairIsHeard(parts, s.contributions, cfg)
            && forall n :: n in parts && !IsTerminal(parts[n].status)
                 ==> IsSettled(parts[n], HasContribution(s.contributions, n)))
      && (d == DecisionBlocked <==>
            parts != map[] && ((cfg.requireChairContribution && FirstChair(parts).None?)
                               || Someone(parts, Blocked) || Someone(parts, TimedOut)))
      && (d == Failed <==>
            && parts != map[] && (cfg.requireChairContribution ==> FirstChair(parts).Some?)
            && !Someone(parts, Blocked) && !Someone(parts, TimedOut) && open < cfg.minQuorum && Someone(parts, Left))
  {
    var parts := if asOf.Some? then Effective(s.participants, asOf.value, cfg) else s.participants;
    hide Counts, CountsOf, WithStatus, IsFirstChair, FirstChair, CategoryCounts, Judge, Available, AwaitedOf, Someone,
      IsSettled, HasContribution, ChairIsHeard, Effective;
    CountsHold(parts);
    JudgeDecides(parts, CountsOf(parts), FirstChair(parts), s.contributions, CategoryCounts(s.contributions), cfg,
                 asOf.GetOr(s.lastDecisionAt));
    CountIsZero(parts, Blocked);
    CountIsZero(parts, TimedOut);
    CountIsZero(parts, Left);
    ChairHeard(parts, s.contributions, cfg);
    AllSettled(parts, s.contributions);
    assert |parts| == 0 <==> parts == map[];
  }

  lemma JudgeDecides(parts: map<NodeId, Participant>, counts: map<Status, nat>, chair: Option<NodeId>,
                     cs: seq<Contribution>, categories: map<Category, nat>, cfg: Config, at: int)
    requires forall s: Status :: s in counts
    ensures var d := Judge(parts, counts, chair, cs, categories, cfg, at).decision;
      var chairMissing := cfg.requireChairContribution && chair.None?;
      var chairIsSilent := cfg.requireChairContribution && chair.Some? && !HasContribution(cs, chair.value);
      var nobodyStops := counts[Blocked] == 0 && counts[TimedOut] == 0;
      var open := |Available(parts)|;
      && (d == Ready <==>
            |parts| != 0 && !chairMissing && nobodyStops && open >= cfg.minQuorum && |cs| != 0 && !chairIsSilent
            && |AwaitedOf(parts, cs)| == 0)
      && (d == DecisionBlocked <==> |parts| != 0 && (chairMissing || !nobodyStops))
      && (d == Failed <==> |parts| != 0 && !chairMissing && nobodyStops && open < cfg.minQuorum && counts[Left] > 0)
  {
    hide Available, AwaitedOf, HasContribution, CategoryCounts, NoneCounted;
  }

  lemma AllSettled(parts: map<NodeId, Participant>, cs: seq<Contribution>)
    ensures |AwaitedOf(parts, cs)| == 0 <==>
      forall n :: n in parts && !IsTerminal(parts[n].status) ==> IsSettled(parts[n], HasContribution(cs, n))
  {
    hide IsSettled, HasContribution;
    var awaited := AwaitedOf(parts, cs);
    assert |awaited| == 0 <==> awaited == {};
    if awaited == {} {
      forall n | n in parts && !IsTerminal(parts[n].status) ensures IsSettled(parts[n], HasContribution(cs, n)) {
        assert n !in awaited;
      }
    }
  }

  lemma ChairHeard(parts: map<NodeId, Participant>, cs: seq<Contribution>, cfg: Config)
    ensures ChairIsHeard(parts, cs, cfg) <==>
      (cfg.requireChairContribution ==> FirstChair(parts).Some? && HasContribution(cs, FirstChair(parts).value))
  {
    if c :| IsFirstChair(parts, c) && HasContribution(cs, c) {
      FirstChairIs(parts, c);
    }
  }

  // ----- lazy and eager timeouts -----

  /** The conference after the timeouts of a moment have been written down. */
  function Reconciled(s: Conference, cfg: Config, at: int): Conference {
    var parts := Effective(s.participants, at, cfg);
    if exists n :: n in s.participants && TimesOut(s.participants[n], at, cfg) then
      s.(participants := parts, revision := s.revision + 1,
         lastDecisionAt := if at >= s.lastDecisionAt then at else s.lastDecisionAt)
    else s
  }

  /** The time zero is taken for no time at all. */
  ghost function CurrentVerdict(s: Conference, cfg: Config, asOf: Option<int>): Verdict {
    VerdictOf(s, cfg, if asOf == Some(0) then None else asOf)
  }

  lemma EffectiveTwice(parts: map<NodeId, Participant>, at: int, cfg: Config)
    ensures Effective(Effective(parts, at, cfg), at, cfg) == Effective(parts, at, cfg)
  {
  }

  lemma NobodyTimesOut(parts: map<NodeId, Participant>, at: int, cfg: Config)
    requires forall n :: n in parts ==> !TimesOut(parts[n], at, cfg)
    ensures Effective(parts, at, cfg) == parts
  {
  }

  /** The timeouts of all participants but those in `rest` are written down. */
  ghost predicate TimedOutSoFar(before: map<NodeId, Participant>, after: map<NodeId, Participant>, rest: set<NodeId>,
                                changed: bool, at: int, cfg: Config)
  {
    && rest <= before.Keys == after.Keys
    && (forall n :: n in before ==> after[n] == if n in rest then before[n] else AfterTimeout(before[n], at, cfg))
    && (changed <==> exists n :: n in before && n !in rest && TimesOut(before[n], at, cfg))
  }

  lemma NobodyYet(parts: map<NodeId, Participant>, at: int, cfg: Config)
    ensures TimedOutSoFar(parts, parts, parts.Keys, false, at, cfg)
  {
  }

  lemma TimeOutNext(before: map<NodeId, Participant>, after: map<NodeId, Participant>, rest: set<NodeId>, changed: bool,
                    n: NodeId, at: int, cfg: Config)
    requires TimedOutSoFar(before, after, rest, changed, at, cfg) && n in rest
    ensures TimedOutSoFar(before, after[n := AfterTimeout(after[n], at, cfg)], rest - {n},
                          changed || TimesOut(after[n], at, cfg), at, cfg)
  {
    hide AfterTimeout, TimesOut;
  }

  lemma TimedOutAll(before: map<NodeId, Participant>, after: map<NodeId, Participant>, changed: bool, at: int,
                    cfg: Config)
    requires TimedOutSoFar(before, after, {}, changed, at, cfg)
    ensures after == Effective(before, at, cfg)
    ensures changed <==> exists n :: n in before && TimesOut(before[n], at, cfg)
    ensures !changed ==> after == before
  {
    hide TimesOut;
  }

  /** Asking what the verdict would be at a time gives the verdict that writing
      the timeouts down at that time gives, for every time except zero. */
  lemma LazyIsEager(s: Conference, cfg: Config, at: int)
    requires s.lastDecisionAt >= EPOCH_MS
    ensures var eager := VerdictOf(Reconciled(s, cfg, at), cfg, Some(at));
      CurrentVerdict(s, cfg, Some(at)) == eager <==> at != 0
  {
    hide Effective, FirstChair, CountsOf, CategoryCounts;
    if forall n :: n in s.participants ==> !TimesOut(s.participants[n], at, cfg) {
      NobodyTimesOut(s.participants, at, cfg);
    }
    EffectiveTwice(s.participants, at, cfg);
    assert Effective(Reconciled(s, cfg, at).participants, at, cfg) == Effective(s.participants, at, cfg);
    SameJudgement(s, Reconciled(s, cfg, at), cfg, at);
    DecidedAt(s, cfg, if at == 0 then None else Some(at));
    DecidedAt(Reconciled(s, cfg, at), cfg, Some(at));
  }

  lemma SameJudgement(a: Conference, b: Conference, cfg: Config, at: int)
    requires Effective(a.participants, at, cfg) == Effective(b.participants, at, cfg)
    requires a.contributions == b.contributions
    ensures VerdictOf(a, cfg, Some(at)) == VerdictOf(b, cfg, Some(at))
  {
    hide Effective, FirstChair, CountsOf, CategoryCounts;
  }

  lemma DecidedAt(s: Conference, cfg: Config, asOf: Option<int>)
    ensures VerdictOf(s, cfg, asOf).decidedAt == asOf.GetOr(s.lastDecisionAt)
  {
    hide Effective, FirstChair, CountsOf, CategoryCounts, Available, AwaitedOf, HasContribution, NoneCounted;
  }

  // ----- contribution keys -----

  function KeyOf(participantId: NodeId, id: string): string {
    participantId + ":" + id
  }

  /** `long` is `short`, a colon and more; the contribution id makes up for it. */
  predicate Absorbs(long: NodeId, id: string, short: NodeId, shortId: string) {
    |long| > |short| && long[..|short| + 1] == short + ":" && shortId == long[|short| + 1..] + ":" + id
  }

  /** Two contributions share a key exactly when they are the same, or when one
      participant id swallows a colon of the other contribution's key. */
  lemma KeysCollide(p: NodeId, i: string, q: NodeId, j: string)
    ensures KeyOf(p, i) == KeyOf(q, j)
      <==> (p == q && i == j) || Absorbs(p, i, q, j) || Absorbs(q, j, p, i)
  {
    if |p| == |q| {
      SameLengthKeys(p, i, q, j);
    } else if |p| > |q| {
      LongerKeys(p, i, q, j);
    } else {
      LongerKeys(q, j, p, i);
    }
  }

  lemma SameLengthKeys(p: NodeId, i: string, q: NodeId, j: string)
    requires |p| == |q|
    ensures KeyOf(p, i) == KeyOf(q, j) <==> p == q && i == j
  {
    assert KeyOf(p, i)[..|p|] == p && KeyOf(p, i)[|p| + 1..] == i;
    assert KeyOf(q, j)[..|q|] == q && KeyOf(q, j)[|q| + 1..] == j;
  }

  lemma LongerKeys(p: NodeId, i: string, q: NodeId, j: string)
    requires |p| > |q|
    ensures KeyOf(p, i) == KeyOf(q, j) <==> Absorbs(p, i, q, j)
  {
    assert p == p[..|q| + 1] + p[|q| + 1..];
    assert KeyOf(p, i)[..|q| + 1] == p[..|q| + 1] && KeyOf(p, i)[|q| + 1..] == p[|q| + 1..] + ":" + i;
    assert KeyOf(q, j)[..|q| + 1] == q + ":" && KeyOf(q, j)[|q| + 1..] == j;
    assert KeyOf(p, i) == p[..|q| + 1] + (p[|q| + 1..] + ":" + i);
    assert KeyOf(q, j) == (q + ":") + j;
  }

  /** A contribution can be taken for the duplicate of another participant's. */
  lemma DifferentContributionsCollide()
    ensures KeyOf("a", "b:c") == KeyOf("a:b", "c")
  {
    assert "a:b" == "a:" + "b" && "b:c" == "b" + ":" + "c";
    assert Absorbs("a:b", "c", "a", "b:c");
    KeysCollide("a:b", "c", "a", "b:c");
  }

  // ----- the conference -----

  /** The keys are those of the contributions, each used once; contributors are
      known and keep to their quota; no decision predates the epoch. */
  ghost predicate Sound(s: Conference, cfg: Config) {
    && (forall i :: 0 <= i < |s.contributions| ==> KeyAt(s.contributions, i) in s.keys)
    && (forall k :: k in s.keys ==> exists i :: 0 <= i < |s.contributions| && KeyAt(s.contributions, i) == k)
    && (forall i, j :: 0 <= i < j < |s.contributions| ==> KeyAt(s.contributions, i) != KeyAt(s.contributions, j))
    && (forall i :: 0 <= i < |s.contributions| ==> s.contributions[i].participantId in s.participants)
    && (forall n :: cfg.maxContributionsPerParticipant.Some? ==>
          CountBy(s.contributions, n) <= NonNegative(cfg.maxContributionsPerParticipant.value))
    && s.lastDecisionAt >= EPOCH_MS
  }

  function NonNegative(n: int): nat { if n < 0 then 0 else n }

  function KeyAt(cs: seq<Contribution>, i: nat): string
    requires i < |cs|
  {
    KeyOf(cs[i].participantId, cs[i].id)
  }

  /** Every mutation counts, and a late one moves the decision time. */
  predicate Recorded(before: Conference, after: Conference, at: int) {
    && after.revision == before.revision + 1
    && after.lastDecisionAt == if at >= before.lastDecisionAt then at else before.lastDecisionAt
  }

  lemma CountByNext(cs: seq<Contribution>, c: Contribution, n: NodeId)
    ensures CountBy(cs + [c], n) == CountBy(cs, n) + if c.participantId == n then 1 else 0
  {
    assert (cs + [c])[..|cs|] == cs;
  }

  lemma OneMore(s: Conference, cfg: Config, c: Contribution, p: Participant, at: int)
    requires Sound(s, cfg) && c.participantId in s.participants && KeyOf(c.participantId, c.id) !in s.keys
    requires !QuotaUsed(s.contributions, c.participantId, cfg)
    ensures Sound(Conference(s.participants[c.participantId := p], s.contributions + [c],
                             s.keys + {KeyOf(c.participantId, c.id)}, s.revision + 1,
                             if at >= s.lastDecisionAt then at else s.lastDecisionAt), cfg)
  {
    hide KeyOf, CountBy;
    var cs := s.contributions + [c];
    assert forall i :: 0 <= i < |s.contributions| ==> KeyAt(cs, i) == KeyAt(s.contributions, i);
    assert KeyAt(cs, |cs| - 1) == KeyOf(c.participantId, c.id);
    forall k | k in s.keys ensures exists i :: 0 <= i < |cs| && KeyAt(cs, i) == k {
      var i :| 0 <= i < |s.contributions| && KeyAt(s.contributions, i) == k;
      assert KeyAt(cs, i) == k;
    }
    forall n: NodeId {
      CountByNext(s.contributions, c, n);
    }
  }

  datatype Refusal = Duplicate | UnknownParticipant | MaxContributions

  class FanIn {
    const cfg: Config
    var participants: map<NodeId, Participant>
    var contributions: seq<Contribution>
    var idempotencyKeys: set<string>
    var revision: nat
    var logicalMs: int
    var lastDecisionAt: int

    ghost function Now(): Conference
      reads this
    {
      Conference(participants, contributions, idempotencyKeys, revision, lastDecisionAt)
    }

    ghost predicate Valid()
      reads this
    {
      Sound(Now(), cfg)
    }

    constructor (cfg: Config)
      ensures Valid() && this.cfg == cfg && participants == map[] && contributions == []
    {
      this.cfg := cfg;
      participants, contributions, idempotencyKeys, revision := map[], [], {}, 0;
      logicalMs, lastDecisionAt := EPOCH_MS, EPOCH_MS;
    }

    method NextTimestamp() returns (at: int)
      modifies this`logicalMs
      ensures at == logicalMs == old(logicalMs) + 1
    {
      logicalMs := logicalMs + 1;
      at := logicalMs;
    }

    method RecordMutation(at: int)
      modifies this`revision, this`lastDecisionAt
      ensures Recorded(old(Now()), Now(), at)
    {
      revision := revision + 1;
      if at >= lastDecisionAt {
        lastDecisionAt := at;
      }
    }

    method CountParticipants(parts: map<NodeId, Participant>) returns (counts: map<Status, nat>)
      ensures counts == CountsOf(parts)
    {
      hide Counts, CountsOf, WithStatus;
      counts := NoneCounted();
      CountNone(parts);
      var rest := parts.Keys;
      assert parts.Keys - rest == {};
      while rest != {}
        invariant rest <= parts.Keys
        invariant Counts(parts, parts.Keys - rest, counts)
        decreases rest
      {
        var n :| n in rest;
        CountOne(parts, parts.Keys - rest, counts, n);
        assert parts.Keys - (rest - {n}) == (parts.Keys - rest) + {n};
        counts := counts[parts[n].status := counts[parts[n].status] + 1];
        rest := rest - {n};
      }
      assert parts.Keys - rest == parts.Keys;
      CountsHold(parts);
    }

    method SummarizeCategories() returns (counts: map<Category, nat>)
      ensures counts == CategoryCounts(contributions)
    {
      counts := map[Analysis := 0, DecisionMade := 0, Question := 0, Artifact := 0, Correction := 0];
      NoCategory();
      hide CategoryCounts;
      for i := 0 to |contributions|
        invariant counts == CategoryCounts(contributions[..i])
      {
        var c := contributions[i];
        NextCategory(contributions[..i], c);
        assert contributions[..i + 1] == contributions[..i] + [c];
        counts := counts[c.category := counts[c.category] + 1];
      }
      assert contributions[..|contributions|] == contributions;
    }

    method ComputeVerdict(asOf: Option<int>) returns (v: Verdict)
      ensures v == VerdictOf(Now(), cfg, asOf)
    {
      hide Judge, CountsOf, FirstChair, CategoryCounts, IsChair;
      var at := asOf.GetOr(lastDecisionAt);
      var parts := if asOf.Some? then Effective(participants, at, cfg) else participants;
      var counts := CountParticipants(parts);
      CountsHold(parts);
      var categories := SummarizeCategories();
      var chair := FindChair(parts);
      v := Judge(parts, counts, chair, contributions, categories, cfg, at);
    }

    method JoinParticipant(nodeId: NodeId, role: Role, joinedAt: Option<int>, lastActiveAt: Option<int>)
      returns (v: Verdict)
      requires Valid()
      modifies this
      ensures Valid() && v == VerdictOf(Now(), cfg, None)
      ensures nodeId in participants && participants == old(participants)[nodeId := participants[nodeId]]
      ensures participants[nodeId].role == role && participants[nodeId].status == Joined
      ensures participants[nodeId].joinedAt == joinedAt.GetOr(old(logicalMs) + 1)
      ensures participants[nodeId].lastActiveAt == lastActiveAt.GetOr(participants[nodeId].joinedAt)
      ensures contributions == old(contributions) && Recorded(old(Now()), Now(), participants[nodeId].lastActiveAt)
    {
      hide VerdictOf;
      var at := joinedAt.GetOr(0);
      if joinedAt.None? {
        at := NextTimestamp();
      }
      var active := lastActiveAt.GetOr(at);
      participants := participants[nodeId := Participant(role, Joined, at, active, None)];
      RecordMutation(active);
      v := ComputeVerdict(None);
    }

    /** A participant that is not known is ignored. */
    method UpdateParticipant(nodeId: NodeId, status: Status, at: Option<int>) returns (v: Verdict)
      requires Valid()
      modifies this
      ensures Valid() && v == VerdictOf(Now(), cfg, None) && contributions == old(contributions)
      ensures nodeId !in old(participants) ==> Now() == old(Now())
      ensures nodeId in old(participants) ==> (
        var t := at.GetOr(old(logicalMs) + 1);
        var p := old(participants)[nodeId];
        && participants == old(participants)[nodeId := p.(status := status, lastActiveAt := t,
                                               leftAt := if IsTerminal(status) then Some(t) else p.leftAt)]
        && Recorded(old(Now()), Now(), t))
    {
      hide VerdictOf;
      if nodeId !in participants {
        v := ComputeVerdict(None);
        return;
      }
      var t := at.GetOr(0);
      if at.None? {
        t := NextTimestamp();
      }
      var p := participants[nodeId].(status := status, lastActiveAt := t);
      if IsTerminal(status) {
        p := p.(leftAt := Some(t));
      }
      participants := participants[nodeId := p];
      RecordMutation(t);
      v := ComputeVerdict(None);
    }

    method MarkContributing(nodeId: NodeId, at: Option<int>) returns (v: Verdict)
      requires Valid()
      modifies this
      ensures Valid() && v == VerdictOf(Now(), cfg, None) && contributions == old(contributions)
      ensures nodeId !in old(participants) ==> Now() == old(Now())
      ensures nodeId in old(participants) ==> (
        var t := at.GetOr(old(logicalMs) + 1);
        && participants == old(participants)[
             nodeId := old(participants)[nodeId].(status := Contributing, lastActiveAt := t)]
        && Recorded(old(Now()), Now(), t))
    {
      hide VerdictOf;
      if nodeId !in participants {
        v := ComputeVerdict(None);
        return;
      }
      var t := at.GetOr(0);
      if at.None? {
        t := NextTimestamp();
      }
      participants := participants[nodeId := participants[nodeId].(status := Contributing, lastActiveAt := t)];
      RecordMutation(t);
      v := ComputeVerdict(None);
    }

    /** Writes down who has been silent for too long. */
    method ReconcileTimeouts(at: Option<int>) returns (v: Verdict)
      requires Valid()
      modifies this
      ensures Valid()
      ensures Now() == Reconciled(old(Now()), cfg, at.GetOr(old(lastDecisionAt)))
      ensures v == VerdictOf(Now(), cfg, Some(at.GetOr(old(lastDecisionAt))))
    {
      hide VerdictOf, TimedOutSoFar, Effective;
      var asOf := at.GetOr(lastDecisionAt);
      var changed := false;
      var rest := participants.Keys;
      ghost var before := participants;
      NobodyYet(before, asOf, cfg);
      while rest != {}
        modifies this`participants
        invariant rest <= participants.Keys == before.Keys
        invariant TimedOutSoFar(before, participants, rest, changed, asOf, cfg)
        decreases rest
      {
        var n :| n in rest;
        var p := participants[n];
        TimeOutNext(before, participants, rest, changed, n, asOf, cfg);
        assert participants[n := p] == participants;
        if !IsTerminal(p.status) && p.status != Idle {
          if asOf - p.lastActiveAt >= cfg.idleTimeoutMs {
            participants := participants[n := p.(status := TimedOut, leftAt := Some(asOf), lastActiveAt := asOf)];
            changed := true;
          }
        }
        rest := rest - {n};
      }
      TimedOutAll(before, participants, changed, asOf, cfg);
      if changed {
        RecordMutation(asOf);
      }
      v := ComputeVerdict(Some(asOf));
    }

    /** Accepted once per key, from known participants, up to their quota. */
    method AddContribution(c: Contribution) returns (v: Verdict, refusal: Option<Refusal>)
      requires Valid()
      modifies this
      ensures Valid() && v == VerdictOf(Now(), cfg, None)
      ensures refusal == if KeyTaken(old(contributions), c) then Some(Duplicate)
        else if c.participantId !in old(participants) then Some(UnknownParticipant)
        else if QuotaUsed(old(contributions), c.participantId, cfg) then Some(MaxContributions) else None
      ensures refusal.Some? ==> Now() == old(Now())
      ensures refusal.None? ==> c.participantId in old(participants) && contributions == old(contributions) + [c]
      ensures refusal.None? ==> Recorded(old(Now()), Now(), c.createdAt)
      ensures refusal.None? ==> participants == old(participants)[
        c.participantId := old(participants)[c.participantId].(status := Contributing, lastActiveAt := c.createdAt)]
    {
      hide VerdictOf, KeyOf, Sound, KeyTaken, QuotaUsed;
      var key := KeyOf(c.participantId, c.id);
      KeysTell(Now(), cfg, c);
      if key in idempotencyKeys {
        v := ComputeVerdict(None);
        return v, Some(Duplicate);
      }
      if c.participantId !in participants {
        v := ComputeVerdict(None);
        return v, Some(UnknownParticipant);
      }
      if QuotaUsed(contributions, c.participantId, cfg) {
        v := ComputeVerdict(None);
        return v, Some(MaxContributions);
      }
      var p := participants[c.participantId].(status := Contributing, lastActiveAt := c.createdAt);
      OneMore(Now(), cfg, c, p, c.createdAt);
      idempotencyKeys := idempotencyKeys + {key};
      contributions := contributions + [c];
      participants := participants[c.participantId := p];
      RecordMutation(c.createdAt);
      v := ComputeVerdict(None);
      refusal := None;
    }

    /** Asks without writing anything down. */
    method CurrentVerdictAt(asOf: Option<int>) returns (v: Verdict)
      ensures v == CurrentVerdict(Now(), cfg, asOf)
    {
      v := ComputeVerdict(if asOf == Some(0) then None else asOf);
    }

    method Reset()
      modifies this
      ensures Valid() && Now() == Conference(map[], [], {}, 0, EPOCH_MS)
    {
      participants, contributions, idempotencyKeys, revision := map[], [], {}, 0;
      logicalMs, lastDecisionAt := EPOCH_MS, EPOCH_MS;
    }
  }

  lemma NoCategory()
    ensures CategoryCounts([]) == map[Analysis := 0, DecisionMade := 0, Question := 0, Artifact := 0, Correction := 0]
  {
  }

  lemma NextCategory(cs: seq<Contribution>, c: Contribution)
    ensures var counts := CategoryCounts(cs);
      c.category in counts && CategoryCounts(cs + [c]) == counts[c.category := counts[c.category] + 1]
  {
    assert (cs + [c])[..|cs|] == cs;
    match c.category
    case Analysis =>
    case DecisionMade =>
    case Question =>
    case Artifact =>
    case Correction =>
  }

  predicate QuotaUsed(cs: seq<Contribution>, who: NodeId, cfg: Config) {
    cfg.maxContributionsPerParticipant.Some? && CountBy(cs, who) >= cfg.maxContributionsPerParticipant.value
  }

  /** An accepted contribution has the same key. */
  ghost predicate KeyTaken(cs: seq<Contribution>, c: Contribution) {
    exists i :: 0 <= i < |cs| && KeyAt(cs, i) == KeyOf(c.participantId, c.id)
  }

  lemma KeysTell(s: Conference, cfg: Config, c: Contribution)
    requires Sound(s, cfg)
    ensures KeyOf(c.participantId, c.id) in s.keys <==> KeyTaken(s.contributions, c)
  {
    hide KeyOf;
  }
}
