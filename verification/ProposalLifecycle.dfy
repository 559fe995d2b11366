/** Conference proposals: approval, application and retry, with an audited count
    of failed applications. */
module ProposalLifecycle {
  import opened Basics
  import opened EventBuffer

  datatype Status = Proposed | Blocked | Approved | Rejected | Applying | Applied | Failed

  predicate Allowed(from: Status, to: Status) {
    match from
    case Proposed => to in {Blocked, Approved, Rejected}
    case Blocked => to in {Approved, Rejected}
    case Approved => to in {Applying, Rejected}
    case Rejected => false
    case Applying => to in {Applied, Failed}
    case Applied => false
    case Failed => to in {Approved, Rejected}
  }

  datatype ReasonCode =
    QuorumNotMet | ChairVeto | ConflictDetected | ValidationFailed | ApplyTimeout | ApplyError | OtherReason

  datatype ProposalError = NotFound | InvalidTransition

  datatype Proposal = Proposal(
    parentTaskId: Id,
    status: Status,
    reasonCode: Option<ReasonCode>,
    applyStartedAt: Option<int>,
    applyCompletedAt: Option<int>,
    applyAttempts: nat,
    updatedAt: int)

  datatype Notice = Notice(proposalId: Id, kind: Status, reasonCode: Option<ReasonCode>, applyAttempt: Option<nat>)

  function EntityOf(n: Notice): Id { n.proposalId }

  /** A failure is recorded together with its number. */
  function KindOf(n: Notice): (Status, Option<nat>) { (n.kind, n.applyAttempt) }

  // ----- one proposal -----

  datatype Op =
    Block(reason: ReasonCode) | Approve | Reject | StartApply | CompleteApply | FailApply(reason: ReasonCode)

  function Target(op: Op): Status {
    match op
    case Block(_) => Blocked
    case Approve => Approved
    case Reject => Rejected
    case StartApply => Applying
    case CompleteApply => Applied
    case FailApply(_) => Failed
  }

  function ReasonOf(op: Op): Option<ReasonCode> {
    match op
    case Block(reason) => Some(reason)
    case FailApply(reason) => Some(reason)
    case _ => None
  }

  function Effect(p: Proposal, op: Op): Proposal {
    match op
    case StartApply => p.(applyStartedAt := Some(p.updatedAt))
    case CompleteApply => p.(applyCompletedAt := Some(p.updatedAt))
    case FailApply(_) => p.(applyCompletedAt := Some(p.updatedAt), applyAttempts := p.applyAttempts + 1)
    case _ => p
  }

  /** `Same`: starting or completing twice is accepted without an event. */
  datatype Outcome = Refused(error: ProposalError) | Same | Moved(proposal: Proposal)

  function Apply(p: Proposal, op: Op, now: int): Outcome {
    if (op == StartApply && p.status == Applying) || (op == CompleteApply && p.status == Applied) then Same
    else if !Allowed(p.status, Target(op)) then Refused(InvalidTransition)
    else
      Moved(Effect(p.(status := Target(op), updatedAt := now,
                      reasonCode := if ReasonOf(op).Some? then ReasonOf(op) else p.reasonCode), op))
  }

  function NewProposal(parentTaskId: Id, now: int): Proposal {
    Proposal(parentTaskId, Proposed, None, None, None, 0, now)
  }

  /** The event of a move numbers a failure by the attempts before it, plus one. */
  function NoticeOf(id: Id, before: Proposal, op: Op): Notice {
    Notice(id, Target(op), ReasonOf(op), if Target(op) == Failed then Some(before.applyAttempts + 1) else None)
  }

  function Statuses(history: seq<(Status, Option<nat>)>): seq<Status> {
    seq(|history|, i requires 0 <= i < |history| => history[i].0)
  }

  /** The failures carry the numbers 1, 2, 3, ... */
  function Failures(history: seq<(Status, Option<nat>)>): nat {
    CountOf(Statuses(history), Failed)
  }

  ghost predicate TraceInv(p: Proposal, history: seq<(Status, Option<nat>)>) {
    && IsPath(Allowed, Proposed, Statuses(history))
    && history[|history| - 1].0 == p.status
    && p.applyAttempts == Failures(history)
    && (forall i :: 0 <= i < |history| ==>
          history[i].1 == if history[i].0 == Failed then Some(Failures(history[..i + 1])) else None)
  }

  lemma StatusesAppend(history: seq<(Status, Option<nat>)>, x: (Status, Option<nat>))
    ensures Statuses(history + [x]) == Statuses(history) + [x.0]
    ensures Failures(history + [x]) == Failures(history) + if x.0 == Failed then 1 else 0
  {
    assert Statuses(history + [x]) == Statuses(history) + [x.0];
    CountAppend(Statuses(history), x.0, Failed);
  }

  lemma NoFailures()
    ensures |Statuses([])| == 0 && Failures([]) == 0
  {
  }

  lemma NewTrace(parentTaskId: Id, now: int)
    ensures TraceInv(NewProposal(parentTaskId, now), [(Proposed, None)])
  {
    var nothing: seq<(Status, Option<nat>)> := [];
    hide Failures, CountOf, Statuses;
    NoFailures();
    StatusesAppend(nothing, (Proposed, None));
    var one: seq<(Status, Option<nat>)> := [(Proposed, None)];
    assert nothing + one == one && one[..1] == one;
    assert Statuses(nothing) + [Proposed] == [Proposed];
  }

  lemma StepKeepsTrace(p: Proposal, history: seq<(Status, Option<nat>)>, op: Op, now: int, id: Id)
    requires TraceInv(p, history) && Apply(p, op, now).Moved?
    ensures TraceInv(Apply(p, op, now).proposal, history + [KindOf(NoticeOf(id, p, op))])
  {
    hide Failures, CountOf;
    var x := KindOf(NoticeOf(id, p, op));
    var longer := history + [x];
    StatusesAppend(history, x);
    assert longer[..|longer|] == longer;
    forall i | 0 <= i < |longer|
      ensures longer[i].1 == if longer[i].0 == Failed then Some(Failures(longer[..i + 1])) else None
    {
      if i < |history| {
        assert longer[..i + 1] == history[..i + 1];
      }
    }
  }

  /** Every application directly follows an approval, every completion or failure
      an application. */
  lemma ApplyingFollowsApproval(p: Proposal, history: seq<(Status, Option<nat>)>, i: nat)
    requires TraceInv(p, history) && 1 <= i < |history|
    ensures history[i].0 == Applying ==> history[i - 1].0 == Approved
    ensures history[i].0 == Applied || history[i].0 == Failed ==> history[i - 1].0 == Applying
  {
    var path := Statuses(history);
    assert Allowed(path[i - 1], path[i]);
  }

  // ----- whole runs -----

  type Life = Trace<Proposal, (Status, Option<nat>)>

  function Live(l: Life, op: Op, now: int): Life {
    var r := Apply(l.entity, op, now);
    if r.Moved? then Trace(r.proposal, l.history + [KindOf(NoticeOf(0, l.entity, op))]) else l
  }

  function LiveAll(start: Life, calls: seq<(Op, int)>): Life {
    RunAll(Live, start, calls)
  }

  /** Over any sequence of calls, idempotent repetitions included, the attempt
      counter equals the number of failures and numbers them. */
  lemma {:induction false} AttemptsAreFailures(parentTaskId: Id, now: int, calls: seq<(Op, int)>)
    ensures var l := LiveAll(Trace(NewProposal(parentTaskId, now), [(Proposed, None)]), calls);
      TraceInv(l.entity, l.history) && l.entity.applyAttempts == Failures(l.history)
    decreases |calls|
  {
    hide TraceInv, Failures, Apply;
    var born := Trace(NewProposal(parentTaskId, now), [(Proposed, None)]);
    NewTrace(parentTaskId, now);
    if calls != [] {
      AttemptsAreFailures(parentTaskId, now, calls[..|calls| - 1]);
      var l := LiveAll(born, calls[..|calls| - 1]);
      var (op, at) := calls[|calls| - 1];
      if Apply(l.entity, op, at).Moved? {
        StepKeepsTrace(l.entity, l.history, op, at, 0);
      }
    }
    var l := LiveAll(born, calls);
    CountsAgree(l.entity, l.history);
  }

  lemma CountsAgree(p: Proposal, history: seq<(Status, Option<nat>)>)
    requires TraceInv(p, history)
    ensures p.applyAttempts == Failures(history)
  {
  }

  // ----- the manager -----

  ghost predicate Consistent(proposals: map<Id, Proposal>, log: seq<Event<Notice>>) {
    Dense(log)
    && (forall id :: id in proposals ==> TraceInv(proposals[id], History(log, EntityOf, KindOf, id)))
    && (forall id :: id !in proposals ==> History(log, EntityOf, KindOf, id) == [])
  }

  lemma ConsistentStep(proposals: map<Id, Proposal>, log: seq<Event<Notice>>, p: Proposal, n: Notice)
    requires Consistent(proposals, log)
    requires TraceInv(p, History(log, EntityOf, KindOf, n.proposalId) + [KindOf(n)])
    ensures Consistent(proposals[n.proposalId := p], log + [Event(|log| + 1, n)])
  {
    hide TraceInv, History;
    forall x {
      HistoryAppend(log, Event(|log| + 1, n), EntityOf, KindOf, x);
    }
  }

  class ProposalManager {
    var proposals: map<Id, Proposal>
    const buffer: CursorEventBuffer<Notice>

    ghost function Log(): seq<Event<Notice>>
      reads buffer
    {
      buffer.pushed
    }

    ghost predicate Valid()
      reads this, buffer
    {
      buffer.Valid() && buffer.nextId == |Log()| && Consistent(proposals, Log())
    }

    constructor (maxEvents: nat)
      ensures Valid() && proposals == map[] && Log() == [] && fresh(buffer)
    {
      proposals := map[];
      buffer := new CursorEventBuffer<Notice>(if maxEvents > 0 then maxEvents else 500);
    }

    method EmitEvent(notice: Notice)
      requires buffer.Valid() && buffer.nextId == |Log()|
      modifies buffer
      ensures buffer.Valid() && buffer.nextId == |Log()|
      ensures Log() == old(Log()) + [Event(|old(Log())| + 1, notice)]
    {
      var eventId := buffer.AllocateId();
      buffer.Push(Event(eventId, notice));
    }

    method Create(parentTaskId: Id, newId: Id, now: int) returns (p: Proposal)
      requires Valid() && newId !in proposals
      modifies this, buffer
      ensures Valid() && p == NewProposal(parentTaskId, now) && proposals == old(proposals)[newId := p]
      ensures Log() == old(Log()) + [Event(|old(Log())| + 1, Notice(newId, Proposed, None, None))]
    {
      hide TraceInv, History;
      p := NewProposal(parentTaskId, now);
      NewTrace(parentTaskId, now);
      ghost var nothing: seq<(Status, Option<nat>)> := [];
      assert nothing + [(Proposed, None)] == [(Proposed, None)];
      ConsistentStep(proposals, Log(), p, Notice(newId, Proposed, None, None));
      proposals := proposals[newId := p];
      EmitEvent(Notice(newId, Proposed, None, None));
    }

    /** Every proposal operation: idempotent repetitions return early, and the
        attempt counter is bumped after the event was emitted. */
    method Perform(id: Id, op: Op, now: int) returns (r: Result<Proposal, ProposalError>)
      requires Valid()
      modifies this, buffer
      ensures Valid() && Follows(old(proposals), old(Log()), id, op, now, r)
    {
      hide TraceInv, History;
      if id !in proposals {
        return Err(NotFound);
      }
      var p := proposals[id];
      if (op == StartApply && p.status == Applying) || (op == CompleteApply && p.status == Applied) {
        return Ok(p);
      }
      if !Allowed(p.status, Target(op)) {
        return Err(InvalidTransition);
      }
      ghost var before := p;
      p := p.(status := Target(op), updatedAt := now);
      var reason := ReasonOf(op);
      if reason.Some? {
        p := p.(reasonCode := reason);
      }
      var applyAttempt := if Target(op) == Failed then Some(p.applyAttempts + 1) else None;
      var notice := Notice(id, Target(op), reason, applyAttempt);
      p := Effect(p, op);
      assert Moved(p) == Apply(before, op, now) && notice == NoticeOf(id, before, op);
      StepKeepsTrace(before, History(Log(), EntityOf, KindOf, id), op, now, id);
      ConsistentStep(proposals, Log(), p, notice);
      proposals := proposals[id := p];
      EmitEvent(notice);
      r := Ok(p);
    }

    ghost predicate Follows(before: map<Id, Proposal>, log: seq<Event<Notice>>, id: Id, op: Op, now: int,
                            r: Result<Proposal, ProposalError>)
      reads this, buffer
    {
      if id !in before then r == Err(NotFound) && proposals == before && Log() == log
      else match Apply(before[id], op, now)
        case Refused(e) => r == Err(e) && proposals == before && Log() == log
        case Same => r == Ok(before[id]) && proposals == before && Log() == log
        case Moved(p) =>
          r == Ok(p) && proposals == before[id := p]
          && Log() == log + [Event(|log| + 1, NoticeOf(id, before[id], op))]
    }
  }
}
