/** Handoff attempts: their phases, the recovery chain of an idempotency key, and
    the ledger of sealed outcomes. */
module RecoveryLedgers {
  import opened Basics
  import opened Lineage

  datatype Scenario = Normal | ReceiverUnavailable | SenderCrash | Duplicate | Recovery

  datatype Phase = Initiated | Dispatched | Acknowledged | Completed | Failed | TimedOut | Canceled

  datatype FailureKind = ReceiverUnreachable | ReceiverRejected | Timeout | PolicyViolation | LoopGuard | OtherFailure

  datatype Outcome = Delivered | Rejected | OutcomeTimedOut | Partial | Deduplicated | Retried | OutcomeFailed

  datatype Handoff = Handoff(
    scenario: Scenario,
    phase: Phase,
    steps: nat,
    idempotencyKey: Id,
    recoveryOf: Option<Id>,
    loopRefused: bool,
    initiatedAt: int,
    dispatchedAt: Option<int>,
    acknowledgedAt: Option<int>,
    completedAt: Option<int>,
    failedAt: Option<int>,
    failureKind: Option<FailureKind>)

  datatype Entry = Entry(
    scenario: Scenario, outcome: Outcome, attemptNumber: nat, durationMs: int, failureKind: Option<FailureKind>,
    sealedAt: int)

  // ----- phases -----

  predicate Allowed(from: Phase, to: Phase) {
    match from
    case Initiated => to in {Dispatched, Failed, Canceled}
    case Dispatched => to in {Acknowledged, Completed, Failed, TimedOut, Canceled}
    case Acknowledged => to in {Completed, Failed, TimedOut, Canceled}
    case _ => false
  }

  function TransitionPhase(h: Handoff, next: Phase, kind: Option<FailureKind>, now: int): Option<Handoff> {
    if !Allowed(h.phase, next) then None
    else
      var moved := h.(phase := next, steps := h.steps + 1);
      Some(match next
        case Dispatched => moved.(dispatchedAt := Some(now))
        case Acknowledged => moved.(acknowledgedAt := Some(now))
        case Completed => moved.(completedAt := Some(now))
        case Failed => moved.(failedAt := Some(now), failureKind := if kind.Some? then kind else h.failureKind)
        case TimedOut => moved.(failedAt := Some(now), failureKind := Some(Timeout))
        case Canceled => moved.(failedAt := Some(now), failureKind := Some(PolicyViolation))
        case Initiated => moved)
  }

  /** A recorded attempt that the loop guard refused is failed at once. */
  function ApplyLoopGuard(h: Handoff, now: int): (r: Handoff)
    ensures r.idempotencyKey == h.idempotencyKey
  {
    if !h.loopRefused || h.phase != Initiated then h
    else TransitionPhase(h, Failed, Some(LoopGuard), now).GetOr(h)
  }

  /** How far a handoff is from its end. */
  function StepsLeft(p: Phase): nat {
    match p
    case Initiated => 3
    case Dispatched => 2
    case Acknowledged => 1
    case _ => 0
  }

  /** Every transition moves strictly closer to an end, so a handoff has at most three. */
  lemma PhasesEnd(h: Handoff, next: Phase, kind: Option<FailureKind>, now: int)
    requires TransitionPhase(h, next, kind, now).Some?
    ensures StepsLeft(TransitionPhase(h, next, kind, now).value.phase) < StepsLeft(h.phase)
    ensures TransitionPhase(h, next, kind, now).value.steps == h.steps + 1
  {
  }

  function ComputeOutcome(h: Handoff): Outcome {
    match h.phase
    case Completed =>
      if h.scenario == Duplicate then Deduplicated else if h.scenario == Recovery then Retried else Delivered
    case TimedOut => OutcomeTimedOut
    case Failed =>
      if h.scenario == SenderCrash then Partial
      else if h.failureKind == Some(ReceiverRejected) || h.failureKind == Some(ReceiverUnreachable) then Rejected
      else OutcomeFailed
    case Canceled => OutcomeFailed
    case _ => Partial
  }

  /** What a ledger entry repeats of its handoff. */
  predicate SealedFrom(h: Handoff, e: Entry) {
    e.scenario == h.scenario && e.outcome == ComputeOutcome(h) && e.failureKind == h.failureKind
  }

  // ----- the ledger -----

  function RecoveryLinks(handoffs: map<Id, Handoff>): Links {
    map id | id in handoffs :: handoffs[id].recoveryOf
  }

  function IndexedIds(index: map<Id, seq<Id>>, key: Id): seq<Id> {
    if key in index then index[key] else []
  }

  predicate IsIndexed(index: map<Id, seq<Id>>, key: Id, id: Id) {
    key in index && id in index[key]
  }

  /** Adding to a collection that keeps the order of insertion. */
  function WithId(s: seq<Id>, id: Id): seq<Id> {
    if id in s then s else s + [id]
  }

  lemma WithIdMembers(s: seq<Id>, id: Id)
    ensures forall x :: x in WithId(s, id) <==> x in s || x == id
    ensures NoRepeats(s) ==> NoRepeats(WithId(s, id))
  {
    AppendNew(s, id);
  }

  /** The insertion order lists every handoff once. */
  ghost predicate InOrder(handoffs: map<Id, Handoff>, order: seq<Id>) {
    NoRepeats(order) && forall id :: id in order <==> id in handoffs
  }

  /** The index lists every handoff under its key, no handoff twice under one key, and
      nothing else. */
  ghost predicate IndexHolds(handoffs: map<Id, Handoff>, index: map<Id, seq<Id>>) {
    && (forall k :: k in index ==> NoRepeats(index[k]))
    && (forall k, id :: IsIndexed(index, k, id) ==> id in handoffs)
    && (forall id :: id in handoffs ==> IsIndexed(index, handoffs[id].idempotencyKey, id))
  }

  lemma RecordKeepsOrder(handoffs: map<Id, Handoff>, order: seq<Id>, id: Id, h: Handoff)
    requires InOrder(handoffs, order)
    ensures InOrder(handoffs[id := h], WithId(order, id))
  {
    hide WithId;
    WithIdMembers(order, id);
  }

  lemma RecordKeepsIndex(handoffs: map<Id, Handoff>, index: map<Id, seq<Id>>, id: Id, h: Handoff)
    requires IndexHolds(handoffs, index)
    ensures IndexHolds(handoffs[id := h],
                       index[h.idempotencyKey := WithId(IndexedIds(index, h.idempotencyKey), id)])
  {
    hide WithId, NoRepeats;
    var key := h.idempotencyKey;
    EmptyHasNoRepeats();
    WithIdMembers(IndexedIds(index, key), id);
    var index' := index[key := WithId(IndexedIds(index, key), id)];
    forall k: Id, x: Id ensures IsIndexed(index', k, x) <==> IsIndexed(index, k, x) || (k == key && x == id) {
    }
    hide IsIndexed;
  }

  lemma EmptyHasNoRepeats()
    ensures NoRepeats<Id>([])
  {
  }

  /** The attempts of a key and everything that recovers one of them. */
  ghost function AttemptChain(handoffs: map<Id, Handoff>, index: map<Id, seq<Id>>, key: Id): set<Id> {
    Closure(RecoveryLinks(handoffs), Elements(IndexedIds(index, key)))
  }

  function PositionOf(s: seq<Id>, id: Id): (i: nat)
    requires id in s
    ensures i < |s| && s[i] == id
  {
    if s[0] == id then 0 else 1 + PositionOf(s[1..], id)
  }

  function OfScenario(entries: map<Id, Entry>, ids: set<Id>, s: Scenario): set<Id> {
    set id | id in ids && id in entries && entries[id].scenario == s
  }

  function OfOutcome(entries: map<Id, Entry>, ids: set<Id>, o: Outcome): set<Id> {
    set id | id in ids && id in entries && entries[id].outcome == o
  }

  ghost predicate HasScenarios(m: map<Scenario, nat>) {
    forall s: Scenario :: s in m
  }

  ghost function ScenarioTotal(m: map<Scenario, nat>): nat
    requires HasScenarios(m)
  {
    m[Normal] + m[ReceiverUnavailable] + m[SenderCrash] + m[Duplicate] + m[Recovery]
  }

  ghost predicate HasOutcomes(m: map<Outcome, nat>) {
    forall o: Outcome :: o in m
  }

  ghost function OutcomeTotal(m: map<Outcome, nat>): nat
    requires HasOutcomes(m)
  {
    m[Delivered] + m[Rejected] + m[OutcomeTimedOut] + m[Partial] + m[Deduplicated] + m[Retried] + m[OutcomeFailed]
  }

  lemma ScenarioStep(entries: map<Id, Entry>, done: set<Id>, id: Id, s: Scenario)
    requires id in entries && id !in done
    ensures |OfScenario(entries, done + {id}, s)|
      == |OfScenario(entries, done, s)| + (if entries[id].scenario == s then 1 else 0)
  {
    var before, after := OfScenario(entries, done, s), OfScenario(entries, done + {id}, s);
    if entries[id].scenario == s {
      assert after == before + {id};
    } else {
      assert after == before;
    }
  }

  lemma OutcomeStep(entries: map<Id, Entry>, done: set<Id>, id: Id, o: Outcome)
    requires id in entries && id !in done
    ensures |OfOutcome(entries, done + {id}, o)|
      == |OfOutcome(entries, done, o)| + (if entries[id].outcome == o then 1 else 0)
  {
    var before, after := OfOutcome(entries, done, o), OfOutcome(entries, done + {id}, o);
    if entries[id].outcome == o {
      assert after == before + {id};
    } else {
      assert after == before;
    }
  }

  datatype Summary = Summary(
    totalAttempts: nat, byScenario: map<Scenario, nat>, byOutcome: map<Outcome, nat>, activeCount: nat,
    recoveryCount: nat, avgRecoveryDurationMs: int)

  // ----- the average recovery -----

  /** The time that the recoveries among the sealed attempts took. */
  ghost function RecoveryTime(entries: map<Id, Entry>, ids: set<Id>): int
    requires ids <= entries.Keys
  {
    if ids == {} then 0
    else
      var id :| id in ids;
      TimeOf(entries[id]) + RecoveryTime(entries, ids - {id})
  }

  function TimeOf(e: Entry): int {
    if e.scenario == Recovery then e.durationMs else 0
  }

  /** The sum does not depend on the order. */
  lemma {:induction false} RecoveryTimeWithout(entries: map<Id, Entry>, ids: set<Id>, id: Id)
    requires ids <= entries.Keys && id in ids
    ensures RecoveryTime(entries, ids) == TimeOf(entries[id]) + RecoveryTime(entries, ids - {id})
    decreases ids
  {
    var x :| x in ids && RecoveryTime(entries, ids) == TimeOf(entries[x]) + RecoveryTime(entries, ids - {x});
    if x != id {
      RecoveryTimeWithout(entries, ids - {x}, id);
      assert ids - {x} - {id} == ids - {id} - {x};
      RecoveryTimeWithout(entries, ids - {id}, x);
    }
  }

  lemma RecoveryTimeWith(entries: map<Id, Entry>, ids: set<Id>, id: Id)
    requires ids <= entries.Keys && id in entries && id !in ids
    ensures RecoveryTime(entries, ids + {id}) == RecoveryTime(entries, ids) + TimeOf(entries[id])
  {
    RecoveryTimeWithout(entries, ids + {id}, id);
    assert ids + {id} - {id} == ids;
  }

  lemma NoTime(entries: map<Id, Entry>)
    ensures RecoveryTime(entries, {}) == 0
  {
  }

  lemma TimeOfRecovery(e: Entry)
    ensures TimeOf(e) == if e.scenario == Recovery then e.durationMs else 0
  {
  }

  function RoundedMean(sum: int, count: nat): int {
    if count == 0 then 0 else (2 * sum + count) / (2 * count)
  }

  /** The mean to the nearest integer, halves upwards; zero for nothing. */
  lemma RoundedMeanIsNearest(sum: int, count: nat)
    ensures var mean := RoundedMean(sum, count);
      if count == 0 then mean == 0 else 2 * count * mean <= 2 * sum + count < 2 * count * mean + 2 * count
  {
    if count > 0 {
      var d := 2 * count;
      assert d * ((2 * sum + count) / d) + (2 * sum + count) % d == 2 * sum + count;
    }
  }

  const NO_SCENARIOS: map<Scenario, nat> :=
    map[Normal := 0, ReceiverUnavailable := 0, SenderCrash := 0, Duplicate := 0, Recovery := 0]

  const NO_OUTCOMES: map<Outcome, nat> :=
    map[Delivered := 0, Rejected := 0, OutcomeTimedOut := 0, Partial := 0, Deduplicated := 0, Retried := 0,
        OutcomeFailed := 0]

  /** Both tables count the entries of `ids`, row by row and in total. */
  ghost predicate Tallied(
      entries: map<Id, Entry>, ids: set<Id>, byScenario: map<Scenario, nat>, byOutcome: map<Outcome, nat>)
  {
    && HasScenarios(byScenario) && ScenarioTotal(byScenario) == |ids|
    && HasOutcomes(byOutcome) && OutcomeTotal(byOutcome) == |ids|
    && (forall s: Scenario :: byScenario[s] == |OfScenario(entries, ids, s)|)
    && (forall o: Outcome :: byOutcome[o] == |OfOutcome(entries, ids, o)|)
  }

  lemma TallyNothing(entries: map<Id, Entry>)
    ensures Tallied(entries, {}, NO_SCENARIOS, NO_OUTCOMES)
    ensures Recovery in NO_SCENARIOS && NO_SCENARIOS[Recovery] == 0
  {
    forall s: Scenario ensures s in NO_SCENARIOS {
      match s case Normal => case ReceiverUnavailable => case SenderCrash => case Duplicate => case Recovery =>
    }
    forall o: Outcome ensures o in NO_OUTCOMES {
      match o case Delivered => case Rejected => case OutcomeTimedOut => case Partial => case Deduplicated =>
      case Retried => case OutcomeFailed =>
    }
    assert forall s: Scenario :: OfScenario(entries, {}, s) == {};
    assert forall o: Outcome :: OfOutcome(entries, {}, o) == {};
  }

  lemma OneMoreScenario(m: map<Scenario, nat>, s: Scenario)
    requires HasScenarios(m) && s in m
    ensures HasScenarios(m[s := m[s] + 1]) && ScenarioTotal(m[s := m[s] + 1]) == ScenarioTotal(m) + 1
  {
    match s case Normal => case ReceiverUnavailable => case SenderCrash => case Duplicate => case Recovery =>
  }

  lemma OneMoreOutcome(m: map<Outcome, nat>, o: Outcome)
    requires HasOutcomes(m) && o in m
    ensures HasOutcomes(m[o := m[o] + 1]) && OutcomeTotal(m[o := m[o] + 1]) == OutcomeTotal(m) + 1
  {
    match o case Delivered => case Rejected => case OutcomeTimedOut => case Partial => case Deduplicated =>
    case Retried => case OutcomeFailed =>
  }

  lemma TallyOne(
      entries: map<Id, Entry>, ids: set<Id>, byScenario: map<Scenario, nat>, byOutcome: map<Outcome, nat>, id: Id)
    requires Tallied(entries, ids, byScenario, byOutcome) && id in entries && id !in ids
    requires entries[id].scenario in byScenario && entries[id].outcome in byOutcome
    ensures var s, o := entries[id].scenario, entries[id].outcome;
      Tallied(entries, ids + {id}, byScenario[s := byScenario[s] + 1], byOutcome[o := byOutcome[o] + 1])
  {
    hide OfScenario, OfOutcome, ScenarioTotal, OutcomeTotal;
    OneMoreScenario(byScenario, entries[id].scenario);
    OneMoreOutcome(byOutcome, entries[id].outcome);
    forall s: Scenario {
      ScenarioStep(entries, ids, id, s);
    }
    forall o: Outcome {
      OutcomeStep(entries, ids, id, o);
    }
  }

  lemma TalliesHaveAllRows(
      entries: map<Id, Entry>, ids: set<Id>, byScenario: map<Scenario, nat>, byOutcome: map<Outcome, nat>, e: Entry)
    requires Tallied(entries, ids, byScenario, byOutcome)
    ensures e.scenario in byScenario && Recovery in byScenario && e.outcome in byOutcome
  {
  }

  /** The handoffs that are not sealed yet. */
  function Active(entries: map<Id, Entry>, handoffs: map<Id, Handoff>): set<Id> {
    set id | id in handoffs && id !in entries
  }

  lemma ActiveIsTheRest(entries: map<Id, Entry>, handoffs: map<Id, Handoff>)
    requires entries.Keys <= handoffs.Keys
    ensures |entries| + |Active(entries, handoffs)| == |handoffs|
  {
    var active := Active(entries, handoffs);
    assert handoffs.Keys == entries.Keys + active && entries.Keys !! active;
    assert |entries| == |entries.Keys| && |handoffs| == |handoffs.Keys|;
  }

  lemma GuardKeepsKey(h: Handoff, now: int)
    ensures ApplyLoopGuard(h, now).idempotencyKey == h.idempotencyKey
  {
  }

  class RecoveryLedger {
    var entries: map<Id, Entry>
    var handoffs: map<Id, Handoff>
    /** Insertion order of the handoffs. */
    var order: seq<Id>
    /** The ids of each key, in the order they were first recorded. */
    var idempotencyIndex: map<Id, seq<Id>>

    ghost predicate Valid()
      reads this
    {
      InOrder(handoffs, order) && IndexHolds(handoffs, idempotencyIndex)
      && forall id :: id in entries ==> id in handoffs
    }

    constructor ()
      ensures Valid() && handoffs == map[] && entries == map[]
    {
      entries, handoffs, order, idempotencyIndex := map[], map[], [], map[];
    }

    method Record(id: Id, record: Handoff, now: int)
      requires Valid()
      modifies this
      ensures Valid() && entries == old(entries)
      ensures handoffs == old(handoffs)[id := ApplyLoopGuard(record, now)] && order == WithId(old(order), id)
      ensures idempotencyIndex == old(idempotencyIndex)[
        record.idempotencyKey := WithId(IndexedIds(old(idempotencyIndex), record.idempotencyKey), id)]
    {
      hide IsIndexed, ApplyLoopGuard, InOrder, IndexHolds;
      var h := ApplyLoopGuard(record, now);
      GuardKeepsKey(record, now);
      RecordKeepsOrder(handoffs, order, id, h);
      RecordKeepsIndex(handoffs, idempotencyIndex, id, h);
      handoffs := handoffs[id := h];
      if id !in order {
        order := order + [id];
      }
      var ids := IndexedIds(idempotencyIndex, h.idempotencyKey);
      if id !in ids {
        ids := ids + [id];
      }
      idempotencyIndex := idempotencyIndex[h.idempotencyKey := ids];
    }

    /** The attempts of a key, then the recovery chain, each attempt once. */
    method GetByIdempotencyKey(key: Id) returns (result: seq<Id>)
      requires Valid()
      ensures key in idempotencyIndex ==>
        NoRepeats(result) && Elements(result) == AttemptChain(handoffs, idempotencyIndex, key)
      ensures key !in idempotencyIndex ==> result == []
      ensures IndexedIds(idempotencyIndex, key) <= result
    {
      hide Closure;
      if key !in idempotencyIndex {
        return [];
      }
      var ids := idempotencyIndex[key];
      var start := set x | x in ids;
      assert Elements(ids) == start;
      var all, added := GrowUntilStable(RecoveryLinks(handoffs), order, start);
      result := ids + added;
      ConcatNew(ids, added);
      assert Elements(result) == all;
    }

    /** Seals an attempt. Its number is its place among the attempts recorded under its
        key: the recovery chain, listed after them, never changes it. */
    method Seal(id: Id, now: int) returns (r: Option<Entry>)
      requires Valid()
      modifies this`entries
      ensures Valid()
      ensures id !in handoffs ==> r.None? && entries == old(entries)
      ensures id in handoffs ==> r.Some? && entries == old(entries)[id := r.value]
      ensures id in handoffs ==> SealedFrom(handoffs[id], r.value)
      ensures id in handoffs ==> (
        var attempts := IndexedIds(idempotencyIndex, handoffs[id].idempotencyKey);
        r.value.attemptNumber < |attempts| && attempts[r.value.attemptNumber] == id)
    {
      if id !in handoffs {
        return None;
      }
      var h := handoffs[id];
      var ended := if h.completedAt.Some? then h.completedAt else h.failedAt;
      var chain := GetByIdempotencyKey(h.idempotencyKey);
      ghost var attempts := idempotencyIndex[h.idempotencyKey];
      ghost var place := PositionOf(attempts, id);
      assert chain[place] == id;
      var entry := Entry(h.scenario, ComputeOutcome(h), PositionOf(chain, id),
                         if ended.Some? then ended.value - h.initiatedAt else 0, h.failureKind, now);
      entries := entries[id := entry];
      r := Some(entry);
    }

    lemma EntriesAreHandoffs()
      requires Valid()
      ensures entries.Keys <= handoffs.Keys
    {
    }

    /** Counts the sealed entries by scenario and by outcome, and the attempts not
        sealed yet. */
    method Summarize() returns (s: Summary)
      requires Valid()
      ensures s.totalAttempts == |entries| && s.totalAttempts + s.activeCount == |handoffs|
      ensures Tallied(entries, entries.Keys, s.byScenario, s.byOutcome)
      ensures Recovery in s.byScenario && s.recoveryCount == s.byScenario[Recovery]
      ensures s.avgRecoveryDurationMs == RoundedMean(RecoveryTime(entries, entries.Keys), s.recoveryCount)
    {
      hide *;
      var byScenario, byOutcome, recoveryCount, recoveryDurationSum := NO_SCENARIOS, NO_OUTCOMES, 0, 0;
      var rest := entries.Keys;
      TallyNothing(entries);
      NoTime(entries);
      assert entries.Keys - rest == {};
      while rest != {}
        invariant rest <= entries.Keys
        invariant Tallied(entries, entries.Keys - rest, byScenario, byOutcome)
        invariant Recovery in byScenario && recoveryCount == byScenario[Recovery]
        invariant recoveryDurationSum == RecoveryTime(entries, entries.Keys - rest)
        decreases rest
      {
        var id :| id in rest;
        var entry := entries[id];
        TalliesHaveAllRows(entries, entries.Keys - rest, byScenario, byOutcome, entry);
        TallyOne(entries, entries.Keys - rest, byScenario, byOutcome, id);
        RecoveryTimeWith(entries, entries.Keys - rest, id);
        TimeOfRecovery(entry);
        assert entries.Keys - (rest - {id}) == (entries.Keys - rest) + {id};
        rest := rest - {id};
        byScenario := byScenario[entry.scenario := byScenario[entry.scenario] + 1];
        byOutcome := byOutcome[entry.outcome := byOutcome[entry.outcome] + 1];
        if entry.scenario == Recovery {
          recoveryCount := recoveryCount + 1;
          recoveryDurationSum := recoveryDurationSum + entry.durationMs;
        }
      }
      assert entries.Keys - rest == entries.Keys;
      EntriesAreHandoffs();
      ActiveIsTheRest(entries, handoffs);
      s := Summary(|entries|, byScenario, byOutcome, |Active(entries, handoffs)|, recoveryCount,
                   RoundedMean(recoveryDurationSum, recoveryCount));
    }
  }
}
