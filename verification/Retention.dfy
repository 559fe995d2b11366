/** Retention: which rows survive a full persist, and the loops that prune the rest. */
module Retention {
  import opened Basics
  import opened BrokerTypes

  datatype Policy = Policy(
    terminalRetentionMs: nat,
    maxTerminalExchanges: nat,
    maxTerminalTasks: nat,
    maxTerminalProposals: nat,
    inactiveWorkerRetentionMs: nat,
    maxInactiveWorkers: nat,
    auditRetentionMs: nat,
    maxAuditEvents: nat,
    maxHeartbeatAuditEvents: nat)

  // ----- newest-N selection -----

  /** What the selection looks at in a record: may it be pruned at all, and how old is it. */
  datatype Entry = Entry(terminal: bool, at: Timestamp)

  type Entries = map<Id, Entry>

  function AgeOf(recs: Entries, id: Id): int {
    if id in recs then recs[id].at.GetOr(0) else 0
  }

  /** The sort key of the selections: newest first, ties by identifier. */
  predicate Before(recs: Entries, a: Id, b: Id) {
    AgeOf(recs, a) > AgeOf(recs, b) || (AgeOf(recs, a) == AgeOf(recs, b) && a < b)
  }

  predicate IsFirst(recs: Entries, ids: set<Id>, best: Id) {
    best in ids && forall y :: y in ids && y != best ==> Before(recs, best, y)
  }

  lemma {:induction false} FirstExists(recs: Entries, ids: set<Id>)
    requires ids != {}
    ensures exists best :: IsFirst(recs, ids, best)
    decreases |ids|
  {
    var x :| x in ids;
    var rest := ids - {x};
    assert forall y :: y in ids ==> y == x || y in rest;
    if rest == {} {
      assert IsFirst(recs, ids, x);
    } else {
      FirstExists(recs, rest);
      var b :| IsFirst(recs, rest, b);
      var best := if Before(recs, x, b) then x else b;
      assert IsFirst(recs, ids, best);
    }
  }

  ghost function First(recs: Entries, ids: set<Id>): (best: Id)
    requires ids != {}
    ensures IsFirst(recs, ids, best)
  {
    FirstExists(recs, ids);
    var best :| IsFirst(recs, ids, best);
    best
  }

  /** The `n` foremost identifiers of `ids`. */
  ghost function Newest(recs: Entries, ids: set<Id>, n: nat): (top: set<Id>)
    ensures top <= ids
    decreases n
  {
    if n == 0 || ids == {} then {}
    else
      var best := First(recs, ids);
      {best} + Newest(recs, ids - {best}, n - 1)
  }

  lemma FirstPrecedes(recs: Entries, ids: set<Id>)
    requires ids != {}
    ensures First(recs, ids) in ids
    ensures forall y :: y in ids && y != First(recs, ids) ==> Before(recs, First(recs, ids), y)
  {
  }

  /** `Newest` is exactly a full quota, or everything, and each chosen
      identifier precedes each one left out. */
  lemma {:induction false} NewestCharacterised(recs: Entries, ids: set<Id>, n: nat)
    ensures |Newest(recs, ids, n)| == if n <= |ids| then n else |ids|
    ensures forall x, y :: x in Newest(recs, ids, n) && y in ids - Newest(recs, ids, n) ==> Before(recs, x, y)
    decreases n
  {
    hide First, Before;
    if n != 0 && ids != {} {
      var best := First(recs, ids);
      FirstPrecedes(recs, ids);
      var others := ids - {best};
      var top := Newest(recs, others, n - 1);
      NewestCharacterised(recs, others, n - 1);
      assert |others| == |ids| - 1 && best !in top && |{best} + top| == 1 + |top|;
      forall x, y | x in {best} + top && y in ids - ({best} + top) ensures Before(recs, x, y) {
        assert y in others - top;
      }
    }
  }

  /** Dropping candidates that did not make the cut changes nothing. */
  lemma {:induction false} NewestStable(recs: Entries, ids: set<Id>, kept: set<Id>, n: nat)
    requires Newest(recs, ids, n) <= kept <= ids
    ensures Newest(recs, kept, n) == Newest(recs, ids, n)
    decreases n
  {
    if n != 0 && ids != {} {
      var best := First(recs, ids);
      assert best in kept;
      assert First(recs, kept) == best;
      var top := Newest(recs, ids - {best}, n - 1);
      assert best !in top;
      NewestStable(recs, ids - {best}, kept - {best}, n - 1);
    }
  }

  /** Only the ages of the candidates matter. */
  lemma {:induction false} NewestLocal(recs: Entries, recs': Entries, ids: set<Id>, n: nat)
    requires forall x :: x in ids ==> AgeOf(recs, x) == AgeOf(recs', x)
    ensures Newest(recs, ids, n) == Newest(recs', ids, n)
    decreases n
  {
    if n != 0 && ids != {} {
      var best := First(recs, ids);
      assert IsFirst(recs', ids, best);
      assert First(recs', ids) == best;
      NewestLocal(recs, recs', ids - {best}, n - 1);
    }
  }

  /** Candidates for pruning: terminal, unprotected and older than the cutoff. */
  function OldTerminal(recs: Entries, protectedIds: set<Id>, cutoff: int): set<Id> {
    set id | id in recs && id !in protectedIds && recs[id].terminal && recs[id].at.Some? && recs[id].at.value < cutoff
  }

  /** The identifiers a terminal-record selection retains. */
  ghost function Select(recs: Entries, protectedIds: set<Id>, cutoff: int, max: nat): set<Id> {
    var cand := OldTerminal(recs, protectedIds, cutoff);
    protectedIds + (recs.Keys - cand) + Newest(recs, cand, max)
  }

  /** Selecting again among the survivors (possibly with some extra rows that
      were put back by other tables) retains the same identifiers. */
  lemma SelectStable(recs: Entries, protectedIds: set<Id>, cutoff: int, max: nat, kept: set<Id>)
    requires Select(recs, protectedIds, cutoff, max) * recs.Keys <= kept
    ensures Select(Restrict(recs, kept), protectedIds, cutoff, max) == Select(recs, protectedIds, cutoff, max)
  {
    var cand := OldTerminal(recs, protectedIds, cutoff);
    var recs' := Restrict(recs, kept);
    var cand' := OldTerminal(recs', protectedIds, cutoff);
    assert cand' == cand * kept;
    NewestLocal(recs', recs, cand', max);
    NewestStable(recs, cand, cand', max);
  }

  /** A full quota of other candidates that precede this one. */
  ghost predicate Outranks(recs: Entries, cand: set<Id>, winners: set<Id>, id: Id, max: nat) {
    |winners| == max && id !in winners && winners <= cand && forall w :: w in winners ==> Before(recs, w, id)
  }

  ghost predicate Outranked(recs: Entries, cand: set<Id>, id: Id, max: nat) {
    exists winners: set<Id> :: Outranks(recs, cand, winners, id, max)
  }

  lemma LeftOutIsOutranked(recs: Entries, cand: set<Id>, max: nat, id: Id)
    requires cand <= recs.Keys && id in cand && id !in Newest(recs, cand, max)
    ensures Outranked(recs, cand, id, max)
  {
    hide Before, Newest;
    var top := Newest(recs, cand, max);
    NewestCharacterised(recs, cand, max);
    if |top| != max {
      SubsetSize(top, cand);
    }
    assert Outranks(recs, cand, top, id, max);
  }

  lemma NewestIsNotOutranked(recs: Entries, cand: set<Id>, max: nat, id: Id)
    requires cand <= recs.Keys && id in Newest(recs, cand, max)
    ensures !Outranked(recs, cand, id, max)
  {
    hide Newest, AgeOf;
    var top := Newest(recs, cand, max);
    NewestCharacterised(recs, cand, max);
    if Outranked(recs, cand, id, max) {
      var winners: set<Id> :| Outranks(recs, cand, winners, id, max);
      forall w | w in winners ensures w in top {
        assert Before(recs, w, id) && w in cand;
        assert w in cand - top ==> Before(recs, id, w);
      }
      assert |winners + {id}| == max + 1;
      SubsetSize(winners + {id}, top);
    }
  }

  /** A row is lost exactly when it is terminal, old, unprotected and at least
      `max` other such rows precede it. */
  lemma SelectMaximal(recs: Entries, protectedIds: set<Id>, cutoff: int, max: nat, id: Id)
    requires id in recs
    ensures id !in Select(recs, protectedIds, cutoff, max) <==>
      id in OldTerminal(recs, protectedIds, cutoff)
      && Outranked(recs, OldTerminal(recs, protectedIds, cutoff), id, max)
  {
    hide Newest, Outranked, Before;
    var cand := OldTerminal(recs, protectedIds, cutoff);
    if id in cand {
      if id in Newest(recs, cand, max) {
        NewestIsNotOutranked(recs, cand, max, id);
      } else {
        LeftOutIsOutranked(recs, cand, max, id);
      }
    }
  }

  // ----- the eight dependent selections -----

  function ExchangeEntries(exchanges: map<Id, Exchange>): (recs: Entries)
    ensures recs.Keys == exchanges.Keys
  {
    map id | id in exchanges :: Entry(IsTerminalExchange(exchanges[id].status), exchanges[id].updatedAt)
  }

  function TaskEntries(tasks: map<Id, Task>): (recs: Entries)
    ensures recs.Keys == tasks.Keys
  {
    map id | id in tasks :: Entry(IsTerminalTask(tasks[id].status),
      if tasks[id].completedAt.Some? then tasks[id].completedAt else tasks[id].updatedAt)
  }

  function ProposalEntries(proposals: map<Id, Proposal>): (recs: Entries)
    ensures recs.Keys == proposals.Keys
  {
    map id | id in proposals :: Entry(IsTerminalProposal(proposals[id].status), proposals[id].updatedAt)
  }

  /** Workers have no terminal status: any of them may go. */
  function WorkerEntries(workers: map<Id, Worker>): (recs: Entries)
    ensures recs.Keys == workers.Keys
  {
    map id | id in workers :: Entry(true, workers[id].lastSeenAt)
  }

  function OptionSet(id: Option<Id>): set<Id> {
    if id.Some? then {id.value} else {}
  }

  function ActiveTaskOf(e: Exchange): set<Id> { OptionSet(e.activeTaskId) }

  function ExchangeOf(t: Task): set<Id> { OptionSet(t.exchangeId) }

  function ProposalOf(t: Task): set<Id> { OptionSet(t.proposalId) }

  function ArtifactsOfProposal(p: Proposal): set<Id> { p.artifactIds }

  function ArtifactsOfTask(t: Task): set<Id> {
    t.artifactIds
    + if t.result.Some?
      then t.result.value.artifactIds + t.result.value.validationArtifactIds + t.result.value.applyArtifactIds
      else {}
  }

  function WorkersOfExchange(e: Exchange): set<Id> {
    {e.targetNodeId, e.target.id} + OptionSet(e.assignedWorkerId)
  }

  function WorkersOfTask(t: Task): set<Id> {
    {t.targetNodeId, t.target.id, t.assignedWorkerId} + OptionSet(t.claimedBy)
  }

  function WorkersOfProposal(p: Proposal): set<Id> {
    {p.sourceNodeId, p.targetNodeId, p.source.id, p.target.id}
  }

  function ExchangeOfMessage(m: Message): Id { m.exchangeId }

  function ProposalOfArtifact(a: Artifact): Id { a.proposalId }

  function ProposalOfValidation(v: Validation): Id { v.proposalId }

  /** Everything that the rows `ids` of a table name through one kind of link. */
  function Named<V>(ids: set<Id>, rows: map<Id, V>, link: V -> set<Id>): set<Id> {
    set i, x | i in ids && i in rows && x in link(rows[i]) :: x
  }

  /** The rows of a table whose owner is in `owners`. */
  function OwnedBy<V>(rows: map<Id, V>, owner: V -> Id, owners: set<Id>): set<Id> {
    set i | i in rows && owner(rows[i]) in owners
  }

  function ArtifactsNamed(db: Tables, taskIds: set<Id>, proposalIds: set<Id>): set<Id> {
    OwnedBy(db.artifacts, ProposalOfArtifact, proposalIds)
    + Named(proposalIds, db.proposals, ArtifactsOfProposal)
    + Named(taskIds, db.tasks, ArtifactsOfTask)
  }

  function WorkersNamed(db: Tables, exchangeIds: set<Id>, taskIds: set<Id>, proposalIds: set<Id>): set<Id> {
    Named(exchangeIds, db.exchanges, WorkersOfExchange)
    + Named(taskIds, db.tasks, WorkersOfTask)
    + Named(proposalIds, db.proposals, WorkersOfProposal)
  }

  /** The identifiers retained in each pruned table. */
  datatype Kept = Kept(
    exchanges: set<Id>,
    messages: set<Id>,
    proposals: set<Id>,
    artifacts: set<Id>,
    validations: set<Id>,
    workers: set<Id>,
    tasks: set<Id>)

  predicate IsHeartbeat(e: AuditEvent) {
    (e.action == WorkerHeartbeat && e.targetType == OnWorker)
    || (e.action == TaskHeartbeat && e.targetType == OnTask)
  }

  /** Evidence about a surviving row is kept whatever its age. */
  predicate IsEvidence(e: AuditEvent, k: Kept) {
    !IsHeartbeat(e)
    && ((e.proposalId.Some? && e.proposalId.value in k.proposals)
        || match e.targetType
           case OnProposal => e.targetId in k.proposals
           case OnArtifact => e.targetId in k.artifacts
           case OnValidation => e.targetId in k.validations
           case OnWorker => e.targetId in k.workers
           case OnTask => e.targetId in k.tasks
           case OnExchange => e.targetId in k.exchanges
           case OnMessage => e.targetId in k.messages)
  }

  function AuditEntries(events: map<Id, AuditEvent>): (recs: Entries)
    ensures recs.Keys == events.Keys
  {
    map id | id in events :: Entry(true, events[id].createdAt)
  }

  function Pinned(events: map<Id, AuditEvent>, k: Kept): set<Id> {
    set id | id in events && (IsEvidence(events[id], k) || events[id].createdAt.None?)
  }

  /** Rows inside the age window that compete for one of the two quotas. */
  function FreshRows(events: map<Id, AuditEvent>, k: Kept, heartbeat: bool, cutoff: int): set<Id> {
    set id | id in events && id !in Pinned(events, k) && IsHeartbeat(events[id]) == heartbeat
      && events[id].createdAt.Some? && events[id].createdAt.value >= cutoff
  }

  ghost function KeptAudit(events: map<Id, AuditEvent>, k: Kept, p: Policy, now: int): set<Id> {
    var cutoff := now - p.auditRetentionMs;
    Pinned(events, k)
    + Newest(AuditEntries(events), FreshRows(events, k, false, cutoff), p.maxAuditEvents)
    + Newest(AuditEntries(events), FreshRows(events, k, true, cutoff), p.maxHeartbeatAuditEvents)
  }

  ghost function FirstExchanges(exchanges: map<Id, Exchange>, p: Policy, now: int): set<Id> {
    Select(ExchangeEntries(exchanges), {}, now - p.terminalRetentionMs, p.maxTerminalExchanges)
  }

  ghost function KeptTasks(tasks: map<Id, Task>, active: set<Id>, p: Policy, now: int): set<Id> {
    Select(TaskEntries(tasks), active, now - p.terminalRetentionMs, p.maxTerminalTasks)
  }

  ghost function KeptProposals(proposals: map<Id, Proposal>, linked: set<Id>, p: Policy, now: int): set<Id> {
    Select(ProposalEntries(proposals), linked, now - p.terminalRetentionMs, p.maxTerminalProposals)
  }

  ghost function KeptWorkers(workers: map<Id, Worker>, named: set<Id>, p: Policy, now: int): set<Id> {
    Select(WorkerEntries(workers), named, now - p.inactiveWorkerRetentionMs, p.maxInactiveWorkers)
  }

  /** The selections in the order the broker makes them: exchanges of retained
      tasks are put back only after the tasks were chosen. */
  ghost function Keep(db: Tables, p: Policy, now: int): Kept {
    var firstKept := FirstExchanges(db.exchanges, p, now);
    var tasks := KeptTasks(db.tasks, Named(firstKept, db.exchanges, ActiveTaskOf), p, now);
    var exchanges := firstKept + Named(tasks, db.tasks, ExchangeOf);
    var proposals := KeptProposals(db.proposals, Named(tasks, db.tasks, ProposalOf), p, now);
    Kept(
      exchanges,
      OwnedBy(db.messages, ExchangeOfMessage, exchanges),
      proposals,
      ArtifactsNamed(db, tasks, proposals),
      OwnedBy(db.validations, ProposalOfValidation, proposals),
      KeptWorkers(db.workers, WorkersNamed(db, exchanges, tasks, proposals), p, now),
      tasks)
  }

  function PruneTables(db: Tables, k: Kept, audit: set<Id>): Tables {
    Tables(
      Restrict(db.exchanges, k.exchanges),
      Restrict(db.messages, k.messages),
      Restrict(db.proposals, k.proposals),
      Restrict(db.artifacts, k.artifacts),
      Restrict(db.validations, k.validations),
      Restrict(db.auditEvents, audit),
      Restrict(db.workers, k.workers),
      Restrict(db.tasks, k.tasks),
      db.tombstones)
  }

  /** The tables after one retention pass at clock `now`. */
  ghost function Retain(db: Tables, p: Policy, now: int): Tables {
    var k := Keep(db, p, now);
    PruneTables(db, k, KeptAudit(db.auditEvents, k, p, now))
  }

  // ----- idempotence -----

  lemma ExchangeSelectStable(exchanges: map<Id, Exchange>, cutoff: int, max: nat, kept: set<Id>)
    requires Select(ExchangeEntries(exchanges), {}, cutoff, max) * exchanges.Keys <= kept
    ensures Select(ExchangeEntries(Restrict(exchanges, kept)), {}, cutoff, max)
         == Select(ExchangeEntries(exchanges), {}, cutoff, max)
  {
    assert ExchangeEntries(Restrict(exchanges, kept)) == Restrict(ExchangeEntries(exchanges), kept);
    SelectStable(ExchangeEntries(exchanges), {}, cutoff, max, kept);
  }

  lemma TaskSelectStable(tasks: map<Id, Task>, protectedIds: set<Id>, cutoff: int, max: nat)
    ensures var kept := Select(TaskEntries(tasks), protectedIds, cutoff, max);
      Select(TaskEntries(Restrict(tasks, kept)), protectedIds, cutoff, max) == kept
  {
    var kept := Select(TaskEntries(tasks), protectedIds, cutoff, max);
    assert TaskEntries(Restrict(tasks, kept)) == Restrict(TaskEntries(tasks), kept);
    SelectStable(TaskEntries(tasks), protectedIds, cutoff, max, kept);
  }

  lemma ProposalSelectStable(proposals: map<Id, Proposal>, protectedIds: set<Id>, cutoff: int, max: nat)
    ensures var kept := Select(ProposalEntries(proposals), protectedIds, cutoff, max);
      Select(ProposalEntries(Restrict(proposals, kept)), protectedIds, cutoff, max) == kept
  {
    var kept := Select(ProposalEntries(proposals), protectedIds, cutoff, max);
    assert ProposalEntries(Restrict(proposals, kept)) == Restrict(ProposalEntries(proposals), kept);
    SelectStable(ProposalEntries(proposals), protectedIds, cutoff, max, kept);
  }

  lemma WorkerSelectStable(workers: map<Id, Worker>, protectedIds: set<Id>, cutoff: int, max: nat)
    ensures var kept := Select(WorkerEntries(workers), protectedIds, cutoff, max);
      Select(WorkerEntries(Restrict(workers, kept)), protectedIds, cutoff, max) == kept
  {
    var kept := Select(WorkerEntries(workers), protectedIds, cutoff, max);
    assert WorkerEntries(Restrict(workers, kept)) == Restrict(WorkerEntries(workers), kept);
    SelectStable(WorkerEntries(workers), protectedIds, cutoff, max, kept);
  }

  lemma NamedStable<V>(ids: set<Id>, rows: map<Id, V>, kept: set<Id>, link: V -> set<Id>)
    requires ids <= kept
    ensures Named(ids, Restrict(rows, kept), link) == Named(ids, rows, link)
  {
    var rows' := Restrict(rows, kept);
    forall x | x in Named(ids, rows, link) ensures x in Named(ids, rows', link) {
      var i :| i in ids && i in rows && x in link(rows[i]);
      assert i in rows' && x in link(rows'[i]);
    }
  }

  lemma OwnedStable<V>(rows: map<Id, V>, owner: V -> Id, owners: set<Id>, kept: set<Id>)
    requires OwnedBy(rows, owner, owners) <= kept
    ensures OwnedBy(Restrict(rows, kept), owner, owners) == OwnedBy(rows, owner, owners)
  {
  }

  lemma AuditStable(events: map<Id, AuditEvent>, k: Kept, p: Policy, now: int)
    ensures var kept := KeptAudit(events, k, p, now);
      KeptAudit(Restrict(events, kept), k, p, now) == kept
  {
    hide Newest, AuditEntries, IsHeartbeat, FreshRows;
    var cutoff := now - p.auditRetentionMs;
    var kept := KeptAudit(events, k, p, now);
    var events' := Restrict(events, kept);
    assert Pinned(events', k) == Pinned(events, k);
    QuotaStable(events, events', k, false, cutoff, p.maxAuditEvents, kept);
    QuotaStable(events, events', k, true, cutoff, p.maxHeartbeatAuditEvents, kept);
  }

  lemma QuotaStable(events: map<Id, AuditEvent>, events': map<Id, AuditEvent>, k: Kept, heartbeat: bool,
                    cutoff: int, max: nat, kept: set<Id>)
    requires events' == Restrict(events, kept)
    requires Newest(AuditEntries(events), FreshRows(events, k, heartbeat, cutoff), max) <= kept
    ensures Newest(AuditEntries(events'), FreshRows(events', k, heartbeat, cutoff), max)
         == Newest(AuditEntries(events), FreshRows(events, k, heartbeat, cutoff), max)
  {
    var rows := FreshRows(events, k, heartbeat, cutoff);
    assert FreshRows(events', k, heartbeat, cutoff) == rows * kept;
    NewestLocal(AuditEntries(events'), AuditEntries(events), rows * kept, max);
    NewestStable(AuditEntries(events), rows, rows * kept, max);
  }

  lemma KeepStable(db: Tables, db': Tables, p: Policy, now: int)
    requires db' == Retain(db, p, now)
    ensures Keep(db', p, now) == Keep(db, p, now)
    ensures KeptAudit(db'.auditEvents, Keep(db', p, now), p, now) == KeptAudit(db.auditEvents, Keep(db, p, now), p, now)
  {
    hide Select, Named, OwnedBy, Restrict, KeptAudit, ExchangeEntries, TaskEntries, ProposalEntries, WorkerEntries;
    var firstKept := FirstExchanges(db.exchanges, p, now);
    var active := Named(firstKept, db.exchanges, ActiveTaskOf);
    var k := Keep(db, p, now);
    ExchangeSelectStable(db.exchanges, now - p.terminalRetentionMs, p.maxTerminalExchanges, k.exchanges);
    NamedStable(firstKept, db.exchanges, k.exchanges, ActiveTaskOf);
    TaskSelectStable(db.tasks, active, now - p.terminalRetentionMs, p.maxTerminalTasks);
    NamedStable(k.tasks, db.tasks, k.tasks, ExchangeOf);
    NamedStable(k.tasks, db.tasks, k.tasks, ProposalOf);
    ProposalSelectStable(db.proposals, Named(k.tasks, db.tasks, ProposalOf), now - p.terminalRetentionMs,
                         p.maxTerminalProposals);
    OwnedStable(db.messages, ExchangeOfMessage, k.exchanges, k.messages);
    OwnedStable(db.validations, ProposalOfValidation, k.proposals, k.validations);
    OwnedStable(db.artifacts, ProposalOfArtifact, k.proposals, k.artifacts);
    NamedStable(k.proposals, db.proposals, k.proposals, ArtifactsOfProposal);
    NamedStable(k.tasks, db.tasks, k.tasks, ArtifactsOfTask);
    NamedStable(k.exchanges, db.exchanges, k.exchanges, WorkersOfExchange);
    NamedStable(k.tasks, db.tasks, k.tasks, WorkersOfTask);
    NamedStable(k.proposals, db.proposals, k.proposals, WorkersOfProposal);
    WorkerSelectStable(db.workers, WorkersNamed(db, k.exchanges, k.tasks, k.proposals),
                       now - p.inactiveWorkerRetentionMs, p.maxInactiveWorkers);
    AuditStable(db.auditEvents, k, p, now);
  }

  lemma PruneTwice(db: Tables, k: Kept, audit: set<Id>)
    ensures PruneTables(PruneTables(db, k, audit), k, audit) == PruneTables(db, k, audit)
  {
  }

  /** A second pass at the same clock removes nothing from any table. */
  lemma RetentionIdempotent(db: Tables, p: Policy, now: int)
    ensures Retain(Retain(db, p, now), p, now) == Retain(db, p, now)
  {
    hide KeptAudit, Keep;
    KeepStable(db, Retain(db, p, now), p, now);
    PruneTwice(db, Keep(db, p, now), KeptAudit(db.auditEvents, Keep(db, p, now), p, now));
  }

  // ----- safety and maximality -----

  /** No row in a non-terminal state is ever pruned. */
  lemma LiveRowsSurvive(db: Tables, p: Policy, now: int)
    ensures var r := Retain(db, p, now);
      && (forall t :: t in db.tasks && !IsTerminalTask(db.tasks[t].status) ==> t in r.tasks)
      && (forall e :: e in db.exchanges && !IsTerminalExchange(db.exchanges[e].status) ==> e in r.exchanges)
      && (forall x :: x in db.proposals && !IsTerminalProposal(db.proposals[x].status) ==> x in r.proposals)
  {
    hide Named, OwnedBy, KeptAudit, WorkersNamed, ArtifactsNamed, KeptWorkers, Newest;
  }

  /** Survivors keep what they point at: a task its exchange and proposal, and
      every survivor its workers and artifacts. */
  lemma SurvivorsKeepTheirLinks(db: Tables, p: Policy, now: int)
    ensures var r := Retain(db, p, now);
      && (forall t, x :: t in r.tasks && x in ExchangeOf(r.tasks[t]) && x in db.exchanges ==> x in r.exchanges)
      && (forall t, x :: t in r.tasks && x in ProposalOf(r.tasks[t]) && x in db.proposals ==> x in r.proposals)
      && (forall t, x :: t in r.tasks && x in ArtifactsOfTask(r.tasks[t]) && x in db.artifacts ==> x in r.artifacts)
      && (forall q, x :: q in r.proposals && x in ArtifactsOfProposal(r.proposals[q]) && x in db.artifacts
            ==> x in r.artifacts)
      && (forall t, w :: t in r.tasks && w in WorkersOfTask(r.tasks[t]) && w in db.workers ==> w in r.workers)
      && (forall e, w :: e in r.exchanges && w in WorkersOfExchange(r.exchanges[e]) && w in db.workers
            ==> w in r.workers)
      && (forall q, w :: q in r.proposals && w in WorkersOfProposal(r.proposals[q]) && w in db.workers
            ==> w in r.workers)
  {
    hide OwnedBy, KeptAudit, TaskEntries, ExchangeEntries, ProposalEntries, WorkerEntries,
      ExchangeOf, ProposalOf, ArtifactsOfTask, ArtifactsOfProposal, WorkersOfTask, WorkersOfExchange, WorkersOfProposal;
    var k := Keep(db, p, now);
    assert k.workers >= WorkersNamed(db, k.exchanges, k.tasks, k.proposals);
    assert k.proposals >= Named(k.tasks, db.tasks, ProposalOf);
  }

  /** Messages and validations live and die with their owners. */
  lemma OwnedRowsFollowTheirOwner(db: Tables, p: Policy, now: int)
    ensures var r := Retain(db, p, now);
      && (forall m :: m in db.messages && db.messages[m].exchangeId in db.exchanges
            ==> (m in r.messages <==> db.messages[m].exchangeId in r.exchanges))
      && (forall v :: v in db.validations && db.validations[v].proposalId in db.proposals
            ==> (v in r.validations <==> db.validations[v].proposalId in r.proposals))
      && (forall a :: a in db.artifacts && db.artifacts[a].proposalId in r.proposals ==> a in r.artifacts)
  {
    hide Named, Select, KeptAudit, WorkersNamed, TaskEntries, ExchangeEntries, ProposalEntries, WorkerEntries;
  }

  /** The active tasks of the exchanges chosen before the tasks were: the only
      tasks that are exempt from the quota. */
  ghost function ProtectedTasks(db: Tables, p: Policy, now: int): set<Id> {
    Named(FirstExchanges(db.exchanges, p, now), db.exchanges, ActiveTaskOf)
  }

  /** A task is lost exactly when it is terminal, old, not the active task of a
      first-chosen exchange, and a full quota of such tasks precedes it. */
  lemma LostTasks(db: Tables, p: Policy, now: int, id: Id)
    requires id in db.tasks
    ensures var recs := TaskEntries(db.tasks);
      var cand := OldTerminal(recs, ProtectedTasks(db, p, now), now - p.terminalRetentionMs);
      id !in Retain(db, p, now).tasks <==> id in cand && Outranked(recs, cand, id, p.maxTerminalTasks)
  {
    hide Named, OwnedBy, KeptAudit, WorkersNamed, ArtifactsNamed, KeptWorkers, Newest, ExchangeEntries, Outranked,
      OldTerminal, TaskEntries, Select, FirstExchanges;
    SelectMaximal(TaskEntries(db.tasks), ProtectedTasks(db, p, now), now - p.terminalRetentionMs, p.maxTerminalTasks,
                  id);
  }

  lemma TasksOfExchange(tasks: map<Id, Task>, ids: set<Id>, exchangeId: Id)
    ensures exchangeId !in Named(ids, tasks, ExchangeOf) <==>
      forall t :: t in Restrict(tasks, ids) ==> tasks[t].exchangeId != Some(exchangeId)
  {
    if exchangeId in Named(ids, tasks, ExchangeOf) {
      var t :| t in ids && t in tasks && exchangeId in ExchangeOf(tasks[t]);
      assert t in Restrict(tasks, ids);
    } else {
      forall t | t in Restrict(tasks, ids) ensures tasks[t].exchangeId != Some(exchangeId) {
        assert t in ids && t in tasks && exchangeId !in ExchangeOf(tasks[t]);
      }
    }
  }

  /** An exchange is lost exactly when, besides, no retained task belongs to it. */
  lemma LostExchanges(db: Tables, p: Policy, now: int, id: Id)
    requires id in db.exchanges
    ensures var recs := ExchangeEntries(db.exchanges);
      var cand := OldTerminal(recs, {}, now - p.terminalRetentionMs);
      id !in Retain(db, p, now).exchanges <==>
        id in cand && Outranked(recs, cand, id, p.maxTerminalExchanges)
        && (forall t :: t in Retain(db, p, now).tasks ==> db.tasks[t].exchangeId != Some(id))
  {
    hide KeptAudit, WorkersNamed, ArtifactsNamed, KeptWorkers, Newest, Outranked, OldTerminal, Select,
      TaskEntries, ExchangeEntries;
    SelectMaximal(ExchangeEntries(db.exchanges), {}, now - p.terminalRetentionMs, p.maxTerminalExchanges, id);
    TasksOfExchange(db.tasks, Keep(db, p, now).tasks, id);
  }

  /** A proposal is lost exactly when it is terminal, old, no retained task works
      on it, and a full quota of such proposals precedes it. */
  lemma LostProposals(db: Tables, p: Policy, now: int, id: Id)
    requires id in db.proposals
    ensures var recs := ProposalEntries(db.proposals);
      var cand := OldTerminal(recs, Named(Keep(db, p, now).tasks, db.tasks, ProposalOf), now - p.terminalRetentionMs);
      id !in Retain(db, p, now).proposals <==> id in cand && Outranked(recs, cand, id, p.maxTerminalProposals)
  {
    hide KeptAudit, WorkersNamed, ArtifactsNamed, KeptWorkers, Newest, Outranked, OldTerminal, Select, Named, OwnedBy,
      TaskEntries, ExchangeEntries, ProposalEntries;
    SelectMaximal(ProposalEntries(db.proposals), Named(Keep(db, p, now).tasks, db.tasks, ProposalOf),
                  now - p.terminalRetentionMs, p.maxTerminalProposals, id);
  }

  /** A worker is lost exactly when nothing that survives names it, it was last
      seen long ago, and a full quota of such workers was seen later. */
  lemma LostWorkers(db: Tables, p: Policy, now: int, id: Id)
    requires id in db.workers
    ensures var recs := WorkerEntries(db.workers);
      var k := Keep(db, p, now);
      var cand := OldTerminal(recs, WorkersNamed(db, k.exchanges, k.tasks, k.proposals),
                              now - p.inactiveWorkerRetentionMs);
      id !in Retain(db, p, now).workers <==> id in cand && Outranked(recs, cand, id, p.maxInactiveWorkers)
  {
    hide KeptAudit, WorkersNamed, ArtifactsNamed, Newest, Outranked, OldTerminal, Select, Named, OwnedBy,
      TaskEntries, ExchangeEntries, ProposalEntries, WorkerEntries;
    var k := Keep(db, p, now);
    SelectMaximal(WorkerEntries(db.workers), WorkersNamed(db, k.exchanges, k.tasks, k.proposals),
                  now - p.inactiveWorkerRetentionMs, p.maxInactiveWorkers, id);
  }

  /** A retained exchange can lose the task it calls active only if it was itself left
      out at first, being terminal, old and outranked, and was put back for another task. */
  lemma OnlyReaddedExchangesLoseTheirTask(db: Tables, p: Policy, now: int, x: Id, t: Id)
    requires x in Retain(db, p, now).exchanges && db.exchanges[x].activeTaskId == Some(t)
    requires t in db.tasks && t !in Retain(db, p, now).tasks
    ensures var recs := ExchangeEntries(db.exchanges);
      var cand := OldTerminal(recs, {}, now - p.terminalRetentionMs);
      x in cand && Outranked(recs, cand, x, p.maxTerminalExchanges)
    ensures exists other :: other in Retain(db, p, now).tasks && other != t && db.tasks[other].exchangeId == Some(x)
  {
    hide KeptAudit, OwnedBy, WorkersNamed, ArtifactsNamed, KeptWorkers, KeptProposals, OldTerminal, Outranked, Select,
      TaskEntries, ExchangeEntries;
    LostTasks(db, p, now, t);
    if x in FirstExchanges(db.exchanges, p, now) {
      ActiveTasksAreProtected(db, p, now, x, t);
    }
    SelectMaximal(ExchangeEntries(db.exchanges), {}, now - p.terminalRetentionMs, p.maxTerminalExchanges, x);
    TasksOfExchange(db.tasks, Keep(db, p, now).tasks, x);
  }

  lemma ActiveTasksAreProtected(db: Tables, p: Policy, now: int, x: Id, t: Id)
    requires x in db.exchanges && db.exchanges[x].activeTaskId == Some(t)
    requires x in FirstExchanges(db.exchanges, p, now) && t in db.tasks
    ensures t in ProtectedTasks(db, p, now)
    ensures t !in OldTerminal(TaskEntries(db.tasks), ProtectedTasks(db, p, now), now - p.terminalRetentionMs)
  {
    hide FirstExchanges, TaskEntries;
    assert t in ActiveTaskOf(db.exchanges[x]);
  }

  /** Such an exchange. */
  lemma ReaddedExchangeCanLoseItsActiveTask(task: Task, exchange: Exchange)
    ensures var db := EMPTY_TABLES.(
        exchanges := map[1 := exchange.(status := ExchangeCompleted, activeTaskId := Some(10), updatedAt := Some(0))],
        tasks := map[10 := task.(status := Succeeded, completedAt := Some(0), exchangeId := Some(1)),
                     11 := task.(status := Running, completedAt := None, exchangeId := Some(1))]);
      var r := Retain(db, Policy(0, 0, 0, 0, 0, 0, 0, 0, 0), 100);
      1 in r.exchanges && r.exchanges[1].activeTaskId == Some(10) && 10 in db.tasks && 10 !in r.tasks
  {
    hide KeptAudit, OwnedBy, WorkersNamed, ArtifactsNamed, KeptWorkers, KeptProposals;
    var exchanges := map[1 := exchange.(status := ExchangeCompleted, activeTaskId := Some(10), updatedAt := Some(0))];
    var tasks := map[10 := task.(status := Succeeded, completedAt := Some(0), exchangeId := Some(1)),
                     11 := task.(status := Running, completedAt := None, exchangeId := Some(1))];
    var p := Policy(0, 0, 0, 0, 0, 0, 0, 0, 0);
    NothingChosenFirst(exchanges, p);
    OnlyTheRunningTask(tasks, p);
    hide FirstExchanges, KeptTasks;
    assert Named({}, exchanges, ActiveTaskOf) == {};
    assert 1 in ExchangeOf(tasks[11]);
  }

  lemma NothingChosenFirst(exchanges: map<Id, Exchange>, p: Policy)
    requires exchanges.Keys == {1} && exchanges[1].status == ExchangeCompleted && exchanges[1].updatedAt == Some(0)
    requires p.maxTerminalExchanges == 0 && p.terminalRetentionMs == 0
    ensures FirstExchanges(exchanges, p, 100) == {}
  {
    assert 1 in OldTerminal(ExchangeEntries(exchanges), {}, 100);
  }

  lemma OnlyTheRunningTask(tasks: map<Id, Task>, p: Policy)
    requires tasks.Keys == {10, 11} && tasks[11].status == Running && tasks[10].status == Succeeded
    requires tasks[10].completedAt == Some(0) && p.maxTerminalTasks == 0 && p.terminalRetentionMs == 0
    ensures KeptTasks(tasks, {}, p, 100) == {11}
  {
    assert 10 in OldTerminal(TaskEntries(tasks), {}, 100);
  }

  lemma AuditAges(events: map<Id, AuditEvent>)
    ensures forall id ::
      id in events && events[id].createdAt.Some? ==> AgeOf(AuditEntries(events), id) == events[id].createdAt.value
  {
  }

  lemma OrdinaryRowsKept(events: map<Id, AuditEvent>, k: Kept, p: Policy, now: int)
    ensures forall id ::
      id in events && !IsHeartbeat(events[id])
      ==> (id in KeptAudit(events, k, p, now) <==>
             id in Pinned(events, k)
             || id in Newest(AuditEntries(events), FreshRows(events, k, false, now - p.auditRetentionMs),
                             p.maxAuditEvents))
  {
    hide Newest, Pinned, AuditEntries;
  }

  /** Heartbeat rows have a quota of their own: which of the other rows survive
      does not depend on them. */
  lemma HeartbeatsDoNotEvict(events: map<Id, AuditEvent>, others: map<Id, AuditEvent>, k: Kept, p: Policy, now: int)
    requires forall id :: id in events && !IsHeartbeat(events[id]) ==> id in others && others[id] == events[id]
    requires forall id :: id in others && !IsHeartbeat(others[id]) ==> id in events && others[id] == events[id]
    ensures forall id ::
      id in events && !IsHeartbeat(events[id])
      ==> (id in KeptAudit(events, k, p, now) <==> id in KeptAudit(others, k, p, now))
  {
    hide KeptAudit, Newest, AuditEntries, FreshRows, IsHeartbeat;
    SameQuota(events, others, k, now - p.auditRetentionMs, p.maxAuditEvents);
    OrdinaryRowsKept(events, k, p, now);
    OrdinaryRowsKept(others, k, p, now);
  }

  lemma SameQuota(events: map<Id, AuditEvent>, others: map<Id, AuditEvent>, k: Kept, cutoff: int, max: nat)
    requires forall id :: id in events && !IsHeartbeat(events[id]) ==> id in others && others[id] == events[id]
    requires forall id :: id in others && !IsHeartbeat(others[id]) ==> id in events && others[id] == events[id]
    ensures Newest(AuditEntries(events), FreshRows(events, k, false, cutoff), max)
         == Newest(AuditEntries(others), FreshRows(others, k, false, cutoff), max)
  {
    hide Newest, AuditEntries, IsHeartbeat;
    var rows := FreshRows(events, k, false, cutoff);
    assert FreshRows(others, k, false, cutoff) == rows;
    AuditAges(events);
    AuditAges(others);
    NewestLocal(AuditEntries(events), AuditEntries(others), rows, max);
  }

  // ----- the loops -----

  ghost predicate IsOrder(recs: Entries, ids: set<Id>, order: seq<Id>) {
    (forall x :: x in order <==> x in ids)
    && (forall i, j :: 0 <= i < j < |order| ==> Before(recs, order[i], order[j]))
  }

  lemma OrderHead(recs: Entries, ids: set<Id>, order: seq<Id>)
    requires IsOrder(recs, ids, order) && order != []
    ensures order[0] in ids && First(recs, ids) == order[0]
    ensures IsOrder(recs, ids - {order[0]}, order[1..])
  {
    assert order[0] in ids;
    forall y | y in ids && y != order[0] ensures Before(recs, order[0], y) {
      var j :| 0 <= j < |order| && order[j] == y;
    }
    assert IsFirst(recs, ids, order[0]);
    forall x ensures x in order[1..] <==> x in ids - {order[0]} {
      assert order == [order[0]] + order[1..];
      if x in order[1..] {
        var j :| 0 <= j < |order[1..]| && order[1..][j] == x;
        assert Before(recs, order[0], order[j + 1]);
      }
    }
  }

  /** Taking a prefix of the sorted candidates takes the newest ones. */
  lemma {:induction false} PrefixIsNewest(recs: Entries, ids: set<Id>, order: seq<Id>, n: nat)
    requires IsOrder(recs, ids, order)
    requires n <= |order|
    ensures Elements(order[..n]) == Newest(recs, ids, n)
    decreases n
  {
    hide IsOrder;
    if n != 0 {
      OrderHead(recs, ids, order);
      PrefixIsNewest(recs, ids - {order[0]}, order[1..], n - 1);
      assert order[..n] == [order[0]] + order[1..][..n - 1];
    }
  }

  /** The comparator sort of the selections. */
  method SortNewestFirst(recs: Entries, ids: set<Id>) returns (order: seq<Id>)
    ensures IsOrder(recs, ids, order)
  {
    order := [];
    var rest := ids;
    while rest != {}
      invariant rest <= ids
      invariant IsOrder(recs, ids - rest, order)
      decreases rest
    {
      var x :| x in rest;
      var k := 0;
      while k < |order| && Before(recs, order[k], x)
        invariant 0 <= k <= |order|
        invariant forall i :: 0 <= i < k ==> Before(recs, order[i], x)
      {
        k := k + 1;
      }
      InsertKeepsOrder(recs, ids - rest, order, k, x);
      rest := rest - {x};
      assert ids - rest == (ids - (rest + {x})) + {x};
      order := order[..k] + [x] + order[k..];
    }
    assert ids - rest == ids;
  }

  lemma InsertKeepsOrder(recs: Entries, ids: set<Id>, order: seq<Id>, k: nat, x: Id)
    requires IsOrder(recs, ids, order) && x !in ids && k <= |order|
    requires forall i :: 0 <= i < k ==> Before(recs, order[i], x)
    requires k < |order| ==> !Before(recs, order[k], x)
    ensures IsOrder(recs, ids + {x}, order[..k] + [x] + order[k..])
  {
    hide AgeOf;
    if k < |order| {
      assert order[k] in ids;
      InsertedBefore(recs, order, k, x);
    }
    hide Before;
    InsertedPairs(recs, order, k, x);
    assert order == order[..k] + order[k..];
  }

  lemma InsertedBefore(recs: Entries, order: seq<Id>, k: nat, x: Id)
    requires k < |order| && order[k] != x && !Before(recs, order[k], x)
    requires forall j :: k < j < |order| ==> Before(recs, order[k], order[j])
    ensures forall j :: k <= j < |order| ==> Before(recs, x, order[j])
  {
  }

  lemma InsertedPairs(recs: Entries, order: seq<Id>, k: nat, x: Id)
    requires forall i, j :: 0 <= i < j < |order| ==> Before(recs, order[i], order[j])
    requires k <= |order| && (forall i :: 0 <= i < k ==> Before(recs, order[i], x))
    requires forall j :: k <= j < |order| ==> Before(recs, x, order[j])
    ensures var longer := order[..k] + [x] + order[k..];
      forall i, j :: 0 <= i < j < |longer| ==> Before(recs, longer[i], longer[j])
  {
    hide Before;
    var longer := order[..k] + [x] + order[k..];
    assert forall i :: 0 <= i < k ==> longer[i] == order[i];
    assert forall i :: k < i < |longer| ==> longer[i] == order[i - 1];
  }

  method SelectRetained(recs: Entries, protectedIds: set<Id>, cutoff: int, max: nat) returns (retained: set<Id>)
    ensures retained == Select(recs, protectedIds, cutoff, max)
  {
    retained := protectedIds;
    var candidates: set<Id> := {};
    var rest := recs.Keys;
    while rest != {}
      invariant rest <= recs.Keys
      invariant candidates == OldTerminal(recs, protectedIds, cutoff) - rest
      invariant retained == protectedIds + (recs.Keys - rest - candidates)
      decreases rest
    {
      var id :| id in rest;
      if !recs[id].terminal || id in retained || recs[id].at.None? || recs[id].at.value >= cutoff {
        retained := retained + {id};
      } else {
        candidates := candidates + {id};
      }
      rest := rest - {id};
    }
    assert candidates == OldTerminal(recs, protectedIds, cutoff);
    var order := SortNewestFirst(recs, candidates);
    var newest := TakeNewest(recs, candidates, order, max);
    retained := retained + newest;
  }

  /** Adds the first `max` sorted candidates one by one. */
  method TakeNewest(recs: Entries, ghost ids: set<Id>, order: seq<Id>, max: nat) returns (taken: set<Id>)
    requires IsOrder(recs, ids, order)
    ensures taken == Newest(recs, ids, max)
  {
    taken := {};
    var n := if max < |order| then max else |order|;
    for i := 0 to n
      invariant taken == Elements(order[..i])
    {
      taken := taken + {order[i]};
      assert order[..i + 1] == order[..i] + [order[i]];
    }
    PrefixIsNewest(recs, ids, order, n);
    if n < max {
      ExhaustedQuota(recs, ids, order, max);
    }
  }

  lemma ExhaustedQuota(recs: Entries, ids: set<Id>, order: seq<Id>, max: nat)
    requires IsOrder(recs, ids, order) && |order| <= max
    ensures Newest(recs, ids, max) == Newest(recs, ids, |order|)
  {
    PrefixIsNewest(recs, ids, order, |order|);
    assert order[..|order|] == order;
    NewestCharacterised(recs, ids, max);
    NewestCharacterised(recs, ids, |order|);
    assert Newest(recs, ids, |order|) == ids;
    SubsetSize(Newest(recs, ids, max), ids);
  }

  method CollectNamed<V>(ids: set<Id>, rows: map<Id, V>, link: V -> set<Id>) returns (found: set<Id>)
    ensures found == Named(ids, rows, link)
  {
    found := {};
    var rest := ids;
    while rest != {}
      invariant rest <= ids
      invariant found == Named(ids - rest, rows, link)
      decreases rest
    {
      var i :| i in rest;
      NamedStep(ids - rest, i, rows, link);
      if i in rows {
        found := found + link(rows[i]);
      }
      rest := rest - {i};
      assert ids - rest == (ids - (rest + {i})) + {i};
    }
    assert ids - rest == ids;
  }

  lemma NamedStep<V>(ids: set<Id>, i: Id, rows: map<Id, V>, link: V -> set<Id>)
    ensures Named(ids + {i}, rows, link) == Named(ids, rows, link) + if i in rows then link(rows[i]) else {}
  {
    forall x | x in Named(ids, rows, link) ensures x in Named(ids + {i}, rows, link) {
      var k :| k in ids && k in rows && x in link(rows[k]);
      assert k in ids + {i};
    }
    if i in rows {
      forall x | x in link(rows[i]) ensures x in Named(ids + {i}, rows, link) {
        assert i in ids + {i};
      }
    }
  }

  method CollectOwned<V>(rows: map<Id, V>, owner: V -> Id, owners: set<Id>) returns (found: set<Id>)
    ensures found == OwnedBy(rows, owner, owners)
  {
    found := {};
    var rest := rows.Keys;
    while rest != {}
      invariant rest <= rows.Keys
      invariant found == OwnedBy(rows, owner, owners) - rest
      decreases rest
    {
      var i :| i in rest;
      if owner(rows[i]) in owners {
        found := found + {i};
      }
      rest := rest - {i};
    }
  }

  /** Keeps, in order, the candidates inside the age window. */
  method DropStale(recs: Entries, ids: set<Id>, order: seq<Id>, cutoff: int) returns (recent: seq<Id>)
    requires IsOrder(recs, ids, order)
    ensures IsOrder(recs, (set x | x in ids && AgeOf(recs, x) >= cutoff), recent)
  {
    recent := [];
    for i := 0 to |order|
      invariant forall x :: x in recent <==> x in order[..i] && AgeOf(recs, x) >= cutoff
      invariant forall a, b :: 0 <= a < b < |recent| ==> Before(recs, recent[a], recent[b])
    {
      assert order[..i + 1] == order[..i] + [order[i]];
      if AgeOf(recs, order[i]) >= cutoff {
        recent := recent + [order[i]];
      }
    }
    assert order[..|order|] == order;
  }

  method SelectRetainedAuditEvents(events: map<Id, AuditEvent>, k: Kept, p: Policy, now: int)
    returns (retained: set<Id>)
    ensures retained == KeptAudit(events, k, p, now)
  {
    hide IsEvidence, IsHeartbeat, Newest, IsOrder;
    var cutoff := now - p.auditRetentionMs;
    var candidates, heartbeats;
    retained, candidates, heartbeats := SplitAuditEvents(events, k);
    var recs := AuditEntries(events);
    var order := SortNewestFirst(recs, candidates);
    order := DropStale(recs, candidates, order, cutoff);
    var rows := set x | x in candidates && AgeOf(recs, x) >= cutoff;
    assert rows == FreshRows(events, k, false, cutoff);
    var recent := TakeNewest(recs, rows, order, p.maxAuditEvents);
    order := SortNewestFirst(recs, heartbeats);
    order := DropStale(recs, heartbeats, order, cutoff);
    var beatRows := set x | x in heartbeats && AgeOf(recs, x) >= cutoff;
    assert beatRows == FreshRows(events, k, true, cutoff);
    var beats := TakeNewest(recs, beatRows, order, p.maxHeartbeatAuditEvents);
    retained := retained + recent + beats;
  }

  method SplitAuditEvents(events: map<Id, AuditEvent>, k: Kept)
    returns (pinned: set<Id>, candidates: set<Id>, heartbeats: set<Id>)
    ensures pinned == Pinned(events, k)
    ensures candidates == set id | id in events && id !in pinned && !IsHeartbeat(events[id])
    ensures heartbeats == set id | id in events && id !in pinned && IsHeartbeat(events[id])
  {
    hide IsEvidence, IsHeartbeat;
    pinned, candidates, heartbeats := {}, {}, {};
    var rest := events.Keys;
    while rest != {}
      invariant rest <= events.Keys
      invariant pinned == Pinned(events, k) - rest
      invariant candidates == (set id | id in events && id !in rest && id !in pinned && !IsHeartbeat(events[id]))
      invariant heartbeats == (set id | id in events && id !in rest && id !in pinned && IsHeartbeat(events[id]))
      decreases rest
    {
      var id :| id in rest;
      var e := events[id];
      if IsEvidence(e, k) || e.createdAt.None? {
        pinned := pinned + {id};
      } else if IsHeartbeat(e) {
        heartbeats := heartbeats + {id};
      } else {
        candidates := candidates + {id};
      }
      rest := rest - {id};
    }
  }

  /** The retention pass: eight dependent selections, then eight prunings. */
  method ApplyRetention(db: Tables, p: Policy, now: int) returns (r: Tables)
    ensures r == Retain(db, p, now)
  {
    hide Select, Named, OwnedBy, KeptAudit, Restrict;
    var cutoff := now - p.terminalRetentionMs;
    var firstKept := SelectRetained(ExchangeEntries(db.exchanges), {}, cutoff, p.maxTerminalExchanges);
    var active := CollectNamed(firstKept, db.exchanges, ActiveTaskOf);
    var tasks := SelectRetained(TaskEntries(db.tasks), active, cutoff, p.maxTerminalTasks);
    var readded := CollectNamed(tasks, db.tasks, ExchangeOf);
    var exchanges := firstKept + readded;
    var linked := CollectNamed(tasks, db.tasks, ProposalOf);
    var proposals := SelectRetained(ProposalEntries(db.proposals), linked, cutoff, p.maxTerminalProposals);
    var artifacts1 := CollectNamed(proposals, db.proposals, ArtifactsOfProposal);
    var artifacts2 := CollectOwned(db.artifacts, ProposalOfArtifact, proposals);
    var artifacts3 := CollectNamed(tasks, db.tasks, ArtifactsOfTask);
    var validations := CollectOwned(db.validations, ProposalOfValidation, proposals);
    var messages := CollectOwned(db.messages, ExchangeOfMessage, exchanges);
    var workers1 := CollectNamed(exchanges, db.exchanges, WorkersOfExchange);
    var workers2 := CollectNamed(tasks, db.tasks, WorkersOfTask);
    var workers3 := CollectNamed(proposals, db.proposals, WorkersOfProposal);
    var workers := SelectRetained(WorkerEntries(db.workers), workers1 + workers2 + workers3,
                                  now - p.inactiveWorkerRetentionMs, p.maxInactiveWorkers);
    var artifacts := artifacts1 + artifacts2 + artifacts3;
    assert artifacts == ArtifactsNamed(db, tasks, proposals);
    var k := Kept(exchanges, messages, proposals, artifacts, validations, workers, tasks);
    assert k == Keep(db, p, now);
    var audit := SelectRetainedAuditEvents(db.auditEvents, k, p, now);
    var prunedExchanges := PruneMapEntries(db.exchanges, exchanges);
    var prunedMessages := PruneMapEntries(db.messages, messages);
    var prunedTasks := PruneMapEntries(db.tasks, tasks);
    var prunedProposals := PruneMapEntries(db.proposals, proposals);
    var prunedArtifacts := PruneMapEntries(db.artifacts, artifacts);
    var prunedValidations := PruneMapEntries(db.validations, validations);
    var prunedWorkers := PruneMapEntries(db.workers, workers);
    var prunedAudit := PruneMapEntries(db.auditEvents, audit);
    r := Tables(prunedExchanges, prunedMessages, prunedProposals, prunedArtifacts, prunedValidations,
                prunedAudit, prunedWorkers, prunedTasks, db.tombstones);
  }
}
