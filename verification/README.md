# Verification of the A2A broker

A Dafny model of the in-memory task broker and of the protocol managers around it, with proofs of what
they promise over whole runs.

* `Basics`, `Text`, `Lineage`: optional values and sets, numerals, and records that follow other records.
* `BrokerTypes`, `Policy`, `TaskMachine`, `TaskNotes`, `TaskRuns`, `CancelTree`: tasks as a state machine over a
  *book* of live tasks, tombstones and the full audit history that retention never shortens.
* `Retention`: the dependent newest-N selections. `ExchangeSync`: exchanges that follow their tasks.
* `Broker`: the broker class, whose methods update the tables in place and follow the state machine, together
  with the write-behind copy (`Overlay(durable, pendingHot) == live` is its invariant).
* `ExchangeThreads`, `ExchangeStore`, `MessageForest`: exchange messages, what they ask for, their live, pending
  and durable rows, descendants and threads.
* `SseReplay`, `EventBuffer`: numbered streams, replay buffers and reconnect cursors.
* `Delivery`, `Execution`, `ProposalLifecycle`, `ConferenceRoom`: the managers over the shared event buffer, each
  with a ghost log of everything it ever emitted.
* `ConferenceFanIn`, `Handoff`, `RecoveryLedger`, `TerminalBrief`, `RateLimiter`: the remaining components.

Records are values in maps, thrown errors are results, times are integers in milliseconds, ids are natural
numbers where only their equality and order matter and strings where their text does. The clock, fresh ids,
worker evidence, metadata checks and the reading of numerals are parameters. `dafny verify dfyconfig.toml` checks everything.

Where the code and what is said about it differ, the model follows the code:

* `README.md:283` promises a fan-out to every non-terminal descendant; the code stops at terminal children
  (`CancelTree.DocumentedFanOut` gives the exact condition).
* An explicit `requiresApproval: false` overrides the inferred approval gate (`ApprovalPolicy.StoredFlagMeaning`).
* A subscription limit of zero or less still yields one event (`EventBuffer.CursorEventBuffer.Subscribe`).
* Keys joined with colons collide in the fan-in and in the projection store (`ConferenceFanIns.KeysCollide` and
  `TerminalBriefs.RecordKeysCollide` say exactly when), but not in conference rooms (`ConferenceRooms.KeyTextInjective`).
* A message whose task cannot be arranged has been stored all the same (`ExchangeThreads.TurnedDown` says exactly
  when), and the exchange row that it changed in place is not pending (`ExchangeStores.ExchangesAreRecoverable`).
* A retried delivery can report a negative duration (`DeliveryLifecycle.NegativeDurationInRuns` says exactly when).
* A clock that goes back can overflow a window of the rate limiter (`RateLimiter.WeakestSafeClock`).
* The snapshot id of a task stream is the number of buffered events and falls behind once the buffer has
  overflowed (`SseReplay.SnapshotCursorLags`).
* A handoff chain through empty node ids can return to one and exceed its hop limit (`HandoffLoops.OneHopTooMany`
  says exactly when).
* Payload and wake of a task can change after it has ended (`TaskRuns.TerminalIsForever` says what cannot).
* Tombstones outlive pruned tasks, so an id must not be used again (`TaskMachine.ReusedIdBreaksTombstones`).

## Model

| member | source | states |
|---|---|---|
| TaskMachine.CommandKeepsSound | src/core/broker.ts:1494-1547 | Claim, start, heartbeat, complete, fail, approve and reassign keep the invariant of every task: a claimed or running task belongs to its assigned worker and has an attempt id, a queued or blocked one has neither, an unapproved gated task is blocked or canceled, result / error / cancellation / completion time exist exactly in the status they belong to, a tombstone exists exactly for failed and canceled tasks, and the requeue counter stays within a positive cap |
| TaskMachine.SilentHeartbeatKeepsSound | src/core/broker.ts:3175-3203 | A heartbeat whose audit row is sampled away keeps the same invariant |
| TaskMachine.CreateKeepsSound | src/core/broker.ts:1269-1337 | Creating a task under an id that never existed before keeps that invariant; a repeated id changes nothing |
| TaskMachine.ReusedIdBreaksTombstones | src/core/broker.ts:1269-1337 | Creating a task under an id that retention has pruned yields a sound task exactly when no tombstone of the old task is left |
| TaskMachine.RejectKeepsSound | src/core/broker.ts:1641-1691 | A refused approval cancels the task with its fan-out and keeps the invariant; approval and rejection never coexist |
| TaskMachine.CancelKeepsSound | src/core/broker.ts:1549-1583 | A cancellation, whoever asks and whatever it reaches, keeps the invariant |
| TaskMachine.SweepKeepsSound | src/core/broker.ts:1849-1940 | The stale-task sweep keeps the invariant: each swept task is requeued within its budget or dead-lettered with a tombstone |
| TaskMachine.SecondSweepIsEmpty | src/core/broker.ts:1849-1940 | A second sweep at the same time finds nothing to do, even with a retention pass in between |
| TaskMachine.PruneKeepsSound | src/core/broker.ts:2370-2468 | Dropping any rows, as retention does, cannot break the task invariant |
| TaskRuns.EveryRunIsSound | src/core/broker.ts:1269-1337 | Every run of broker steps, payload updates, wakes, silent heartbeats and retention included, reaches only states that satisfy the task invariant, provided pruned ids are not reused |
| TaskRuns.TerminalIsForever | src/core/broker.ts:1402-1492 | Once succeeded, failed or canceled, a task keeps its status, result, error, cancellation, completion time, approval and all the rest of its record in any run, for as long as it is kept; only its payload, its wake and the time of its last change are still written, and a terminal task neither gets a new wake nor loses a decision on one |
| TaskRuns.TrailTellsWakes | src/core/broker.ts:1339-1440 | In every run, reuse of ids included, the full audit history of each task tells its wake: it was planned at most once and decided at most once, after that, and with the verdict that the task holds |
| TaskNotes.NoteKeepsSound | src/core/broker.ts:1339-1492 | Updating the payload, planning a wake and deciding on it keep the task invariant, whatever the status of the task |
| TaskNotes.NoteOnTerminal | src/core/broker.ts:1402-1492 | On a terminal task the calls that are not refused leave everything but payload, wake decision and the time of the last change as it was; replays of a wake plan are refused too |
| TaskRuns.GoneStaysGone | src/core/broker.ts:2370-2468 | A pruned task never reappears in a run that does not reuse ids |
| TaskRuns.ApprovalGateHolds | src/core/broker.ts:1585-1720 | Over any run, each claim of a task that requires approval comes after an approval of it; without an approval such a task is blocked or canceled; approval and a non-approving outcome exclude each other |
| TaskRuns.RequeueBudgetHolds | src/core/broker.ts:1849-1940 | Over any run the requeue counter equals the requeues since creation or the last reassignment in the full audit history, never exceeds a positive cap, and a task terminates at most once |
| CancelTree.ClosedIsCancelSet | src/core/broker.ts:3132-3170 | A set of live tasks that is reachable from the root and closed under live children is exactly the set of tasks reachable by child edges through live tasks, whatever cycles the parent graph has |
| CancelTree.ComposeCancels | src/core/broker.ts:3132-3163 | Canceling one set of tasks and then another, with retention in between, amounts to canceling both at once |
| CancelTree.FanOutSources | src/core/broker.ts:3145-3160 | Every canceled descendant names its own parent as the source, and that parent was canceled by the same call |
| CancelTree.DocumentedFanOut | README.md:283 | The documented fan-out to every non-terminal descendant happens exactly when no terminal descendant still has a live child |
| CancelTree.FanOutMissesGrandchild | src/core/broker.ts:3146-3149 | A live task below a finished child of the canceled task is left alone |
| Broker.InMemoryBroker.CancelTaskTree | src/core/broker.ts:3132-3163 | The recursion terminates on every parent graph and newly cancels exactly the tasks reachable through live tasks, each once, with its own parent as the source; exactly the exchanges of those tasks are queued, each after one of them |
| Broker.InMemoryBroker.constructor | src/core/broker.ts:405-440 | A fresh broker is sound and its durable copy agrees with it |
| Broker.InMemoryBroker.PersistState | src/core/broker.ts:2634-2675 | On the hot path and on the full-snapshot path alike, the durable copy afterwards equals the live tables and nothing is pending; only the full path prunes |
| Broker.InMemoryBroker.SetTaskRecord | src/core/broker.ts:2677-2681 | A stored task row is pending in the same breath, so durable plus pending still equals live |
| Broker.InMemoryBroker.SetWorkerRecord | src/core/broker.ts:2715-2719 | The same for worker rows |
| Broker.InMemoryBroker.SetExchangeRecord | src/core/broker.ts:2683-2688 | The same for exchange rows |
| Broker.InMemoryBroker.AppendAuditEvent | src/core/broker.ts:2865-2901 | Appending keeps durable plus pending equal to live, extends the full history of the task, and overwrites an existing row only for heartbeats |
| Broker.InMemoryBroker.WriteTombstone | src/core/broker.ts:3641-3673 | A tombstone written after the save stays pending and so is not lost to the durable copy |
| Broker.InMemoryBroker.SyncExchangeStateFromTask | src/core/broker.ts:3691-3709 | Mirroring a task into its exchange touches that exchange only and keeps the copies in agreement |
| ExchangeSync.MovedTwice | src/core/broker.ts:3132-3163 | Exchanges that follow one group of tasks and then another follow the later one where both name them, and the others stay as they were |
| ExchangeSync.MovedMore | src/core/broker.ts:1909-1916 | One more swept task takes its exchange, and no other, along |
| ExchangeSync.MovedAlike | src/core/broker.ts:1641-1691 | A rejected task reaches and moves the same tasks and exchanges as before its record changed |
| ExchangeSync.RetainKeepsRows | src/core/broker.ts:2370-2468 | Retention leaves exchanges and workers unchanged or drops them, and never drops a live exchange |
| Broker.SeenWorkerStays | src/core/broker.ts:4765-4796 | A worker seen just now is never pruned |
| Broker.InMemoryBroker.CreateTask | src/core/broker.ts:1269-1337 | Creation answers as the task machine says, stores the task, links its exchange and no other, and keeps durability and the task invariant; a refusal or a repeated id changes nothing |
| Broker.InMemoryBroker.ClaimTask | src/core/broker.ts:1693-1720 | Claiming follows the task machine on every path, refusals included, up to what the retention pass drops; the exchange of the task runs and no other exchange or worker changes |
| Broker.InMemoryBroker.StartTask | src/core/broker.ts:1722-1742 | Starting follows the task machine on every path, and so does the exchange of the task |
| Broker.InMemoryBroker.CompleteTask | src/core/broker.ts:1744-1795 | Completing follows the task machine on every path and completes the exchange of the task; completing a finished task changes nothing |
| Broker.InMemoryBroker.FailTask | src/core/broker.ts:1797-1830 | Failing follows the task machine, leaves a tombstone and fails the exchange of the task |
| Broker.InMemoryBroker.HeartbeatTask | src/core/broker.ts:3175-3203 | A heartbeat, its audit row sampled away or not, keeps the task invariant and the copies in agreement and touches no exchange |
| Broker.InMemoryBroker.UpdateTaskPayload | src/core/broker.ts:1468-1492 | A payload update is accepted from any named actor, terminal tasks included, touches no exchange or worker, and keeps the task invariant and the copies in agreement |
| Broker.InMemoryBroker.PlanAcceptedTaskWake | src/core/broker.ts:1339-1400 | Planning follows the wake rules on every path; the caller is told to dispatch exactly while the wake is not decided, and that it replays exactly when the task had a wake before |
| Broker.InMemoryBroker.RecordTaskWakeDecision | src/core/broker.ts:1402-1440 | A decision follows the wake rules on every path: it needs a plan, is taken once, and repeating it changes nothing |
| Broker.InMemoryBroker.ApproveTask | src/core/broker.ts:1585-1639 | Approving follows the task machine on every path and queues the exchange of the task |
| Broker.InMemoryBroker.ReassignTask | src/core/broker.ts:1494-1547 | Reassigning follows the task machine on every path and moves the exchange of the task along |
| Broker.InMemoryBroker.CancelTask | src/core/broker.ts:1549-1583 | Canceling a live task cancels exactly its live-reachable set and queues exactly the exchanges of those tasks; a terminal task is returned and nothing changes |
| Broker.InMemoryBroker.RejectTaskApproval | src/core/broker.ts:1641-1691 | Rejecting cancels the task and its live-reachable set, once, records the decision, and queues exactly the exchanges of those tasks; a repetition or a refusal changes nothing |
| Broker.InMemoryBroker.RequeueStaleTasksDetailed | src/core/broker.ts:1849-1940 | The sweep splits exactly the stale tasks into disjoint requeued and dead-lettered sets by the cap and leaves every other task alone; an exchange follows one of its swept tasks or stays as it was |
| Broker.InMemoryBroker.DeadLetter | src/core/broker.ts:1876-1907 | A dead-lettered task fails for good with a tombstone that says so |
| Broker.InMemoryBroker.Requeue | src/core/broker.ts:1909-1928 | A requeued task waits unclaimed with one more requeue on its account |
| Broker.InMemoryBroker.RegisterWorker | src/core/broker.ts:836-864 | Registering stores the worker with the time of its first registration, changes no other row, and keeps the copies in agreement; without role or capabilities nothing changes |
| Broker.InMemoryBroker.HeartbeatWorker | src/core/broker.ts:866-915 | A heartbeat updates what the worker says about itself and never loses it; it is written out at once exactly when the interval is zero or over or the profile changed, and is only pending otherwise, durable plus pending equal to live |
| Broker.SweepOne | src/core/broker.ts:1875-1930 | Handling stale tasks one after the other gives the same book as handling them all at once |
| Broker.SilentHeartbeat | src/core/broker.ts:3175-3203 | Sampling away the audit row of a heartbeat never breaks the task invariant |
| Broker.CommandThenPrune | src/core/broker.ts:2634-2675 | A command followed by any retention pass keeps the task invariant |
| ApprovalPolicy.StoredFlagMeaning | src/core/policy.ts:107-142 | The stored flag follows an explicit answer in the request, and otherwise is set exactly for live-impact and dangerous requests; an explicit no overrides the inference |
| Retention.RetentionIdempotent | src/core/broker.ts:2370-2468 | At a fixed clock a second retention pass removes nothing from any table, through every dependent selection |
| Retention.KeepStable | src/core/broker.ts:2370-2468 | All eight dependent selections, that of the audit rows included, choose the same rows again after their own pruning |
| Retention.LiveRowsSurvive | src/core/broker.ts:2370-2443 | No non-terminal task, exchange or proposal is ever pruned |
| Retention.SurvivorsKeepTheirLinks | src/core/broker.ts:2381-2443 | Surviving tasks keep their exchange, proposal and artifacts, surviving proposals keep their artifacts, and workers named by survivors survive |
| Retention.OwnedRowsFollowTheirOwner | src/core/broker.ts:2470-2574 | Messages survive exactly with their exchange and validations exactly with their proposal |
| Retention.LostTasks | src/core/broker.ts:4725-4763 | A task is pruned exactly when it is terminal, old, not protected, and outranked by a full quota of newer old tasks |
| Retention.LostExchanges | src/core/broker.ts:2381-2405 | An exchange is pruned exactly when it is terminal, old, outranked, and named by no surviving task |
| Retention.LostProposals | src/core/broker.ts:2406-2425 | A proposal is pruned exactly when it is terminal, old, outranked, and named by no surviving task |
| Retention.LostWorkers | src/core/broker.ts:4765-4796 | A worker is pruned exactly when it is inactive, outranked, and named by no survivor |
| Retention.ReaddedExchangeCanLoseItsActiveTask | src/core/broker.ts:2400-2405 | An exchange kept only because a task names it may lose its own active task: exchanges added back do not protect theirs |
| Retention.OnlyReaddedExchangesLoseTheirTask | src/core/broker.ts:2381-2405 | A retained exchange loses its active task only if the exchange itself is terminal, old and outranked by a full quota of others, and was put back for another retained task |
| Retention.HeartbeatsDoNotEvict | src/core/broker.ts:4798-4848 | Which ordinary audit rows survive does not depend on the heartbeat rows |
| Retention.NewestCharacterised | src/core/broker.ts:4750-4763 | A newest-N selection is a full quota, or everything, and each chosen record precedes each one left out |
| Retention.NewestStable | src/core/broker.ts:4750-4763 | Dropping candidates that did not make the cut changes no selection |
| Retention.SelectMaximal | src/core/broker.ts:4725-4763 | A record is left out exactly when it is an old, unprotected terminal record and a full quota of such records precedes it |
| Retention.SelectStable | src/core/broker.ts:4725-4763 | A selection repeats itself on any table that still holds the selected records and lost only unselected ones |
| Retention.PrefixIsNewest | src/core/broker.ts:4750-4763 | The first N of a sorted list are the newest-N selection |
| Retention.SortNewestFirst | src/core/broker.ts:3971-3999 | Sorting yields each candidate once, newest first with ties by id |
| Retention.SelectRetained | src/core/broker.ts:4725-4763 | The loop over terminal records computes the selection |
| Retention.SelectRetainedAuditEvents | src/core/broker.ts:4798-4848 | The audit loop keeps the pinned rows and the two newest-N quotas |
| Retention.CollectNamed | src/core/broker.ts:2470-2574 | The collecting loops find exactly the rows named by the given ones |
| Retention.CollectOwned | src/core/broker.ts:2470-2574 | The collecting loops find exactly the rows whose owner is kept |
| Retention.ApplyRetention | src/core/broker.ts:2370-2468 | The whole pass, selection by selection, equals its specification |
| Basics.PruneMapEntries | src/core/broker.ts:4908-4914 | Deleting key by key leaves exactly the retained entries |
| ExchangeStores.ExchangeStore.StartExchange | src/core/broker.ts:689-722 | A new exchange gets a fresh id and a thread of one root message, other threads untouched |
| ExchangeStores.ExchangeStore.AddExchangeMessage | src/core/broker.ts:780-833 | The message hangs under its parent or the root; every thread stays a tree under its root with the counter equal to its size; once the checks are passed the message is stored, and the call fails exactly when the message asks for a task and none can be arranged: a worker is unknown, a live task sits elsewhere and the actor may not move it, or the metadata of a new task does not hold |
| ExchangeStores.ExchangeStore.ListExchangeMessages | src/core/broker.ts:747-778 | A listing holds each message once, oldest first and the root first at its instant: all of them, the descendants of one message, or its direct answers; it fails exactly for an unknown exchange or parent |
| ExchangeThreads.TurnedDown | src/core/broker.ts:2984-3075 | Any message is turned down exactly when it is neither a request for clarification nor a refusal and a worker is unknown, a live task would have to be moved by somebody who may not, or there is no live task and the metadata of a new one does not hold |
| ExchangeThreads.TurnedDownForetold | src/core/broker.ts:780-833 | The same, told from the request and the exchange before the call |
| ExchangeThreads.NewTaskForetold | src/core/broker.ts:3054-3074 | The request that is made for a new task is refused exactly when its metadata does not hold; otherwise it leaves a live task of the exchange at the target and the worker asked for |
| ExchangeStores.EveryRunIsConsistent | src/core/broker.ts:689-833 | In every run of messages, task changes, saves and retention, all threads stay trees with the right counters and every message can be recovered from durable and pending rows |
| ExchangeStores.ExchangesAreRecoverable | src/core/broker.ts:2683-2695 | After any run, durable plus pending equals live for exchanges exactly when no exchange is left whose last message was stored and then turned down; a task change, an accepted message or a full save heals it |
| ExchangeStores.ExchangesCanBeLost | src/core/broker.ts:820-831 | A new exchange and one message for it while its worker is unknown leave a row that the durable copy and the pending rows do not give back |
| ExchangeStores.AddKeeps | src/core/broker.ts:805-833 | A message keeps threads and recoverability, except that one turned down after it was stored leaves its exchange row unsaved |
| ExchangeStores.FollowKeeps | src/core/broker.ts:3675-3709 | Following a task stores the exchange row again |
| ExchangeStores.SaveFullKeeps | src/core/broker.ts:2656-2675 | A full save makes every exchange recoverable again |
| ExchangeStores.ExchangeStore.FollowTask | src/core/broker.ts:3675-3709 | The exchange of a changed task follows it and is pending, no other row changes |
| ExchangeStores.ExchangeStore.PersistHot | src/core/broker.ts:2742-2775 | A hot save upserts the pending rows |
| ExchangeStores.ExchangeStore.PersistFull | src/core/broker.ts:2656-2675 | A full save prunes whole threads and replaces the durable rows |
| ExchangeThreads.TreeGrows | src/core/broker.ts:805-824 | Answering a message of the exchange keeps the thread a tree |
| ExchangeThreads.AnswerKeepsThread | src/core/broker.ts:805-824 | One more answer keeps root, counter and latest message right |
| ExchangeThreads.OtherThreadsStay | src/core/broker.ts:824-833 | A message in one exchange leaves the threads of all others as they were |
| ExchangeThreads.RecordKeepsThreads | src/core/broker.ts:2683-2688 | Rewriting an exchange row without touching its root, counter and latest message keeps every thread |
| ExchangeThreads.TaskSyncKeepsThreads | src/core/broker.ts:3675-3709 | Following a task changes no thread |
| ExchangeThreads.RetentionKeepsThreads | src/core/broker.ts:2455-2468 | Retention prunes only whole threads |
| ExchangeThreads.AcceptanceCanBeTurnedDown | src/core/broker.ts:3029-3052 | A node that accepts an exchange whose live task sits elsewhere is refused, exactly when it is neither hub nor operator, although its message stays |
| ExchangeThreads.ThreadsShowEverything | src/server.ts:3859-3882 | For any part of the messages of an exchange the threads shown are a permutation of the list |
| ExchangeThreads.OneThread | src/server.ts:3859-3882 | A whole exchange is shown as one thread under its root |
| MessageForest.BuildMessageThreads | src/server.ts:3859-3882 | The table-filling loop and the recursion produce the specified threads and terminate for every list, circular answers included |
| MessageForest.ThreadsAreAPermutation | src/server.ts:3859-3882 | The threads are a permutation of the list exactly when no messages of the list answer one another in a circle |
| MessageForest.ThreadsListThreaded | src/server.ts:3859-3882 | The threads list each message that has a path from a thread start, once, and nothing else |
| MessageForest.ThreadsAreWellFormed | src/server.ts:3876-3882 | Threads start with the messages that answer nothing in the list, and under each message hang exactly its answers in list order |
| Lineage.GrowUntilStable | src/core/broker.ts:4025-4041 | The grow-until-stable loop terminates with exactly the records reachable from the start, each added once |
| Lineage.ClosureIsLeast | src/core/broker.ts:4025-4041 | The reachable records are the least set that contains the start and is closed under answers |
| SseReplay.IdRoundTrip | src/core/broker.ts:670-687 | Parsing an event id undoes formatting it exactly when the task id is not empty, colons included, with any reading of numbers that reads plain numerals |
| SseReplay.IdInjective | src/core/broker.ts:670-687 | No two positions share an event id |
| SseReplay.OperatorIdRoundTrip | src/server.ts:4218-4231 | Operator event ids are read back as written |
| SseReplay.AcceptedReplaysEverything | src/server.ts:4222-4253 | However it is spelled, fractions included, an operator cursor is accepted exactly when it is not after the current event and nothing after it was evicted; the replay is then every later event |
| SseReplay.OperatorStream.Emit | src/server.ts:902-913 | The operator buffer holds the last 200 events with consecutive numbers that end at the latest |
| SseReplay.OperatorStream.Reconnect | src/server.ts:885-892 | A reconnecting client gets every event it missed, or nothing and a fresh start |
| SseReplay.ReplayIsTail | src/core/broker.ts:661-668 | Replaying a buffer after a cursor yields exactly the buffered events the cursor has not seen, in order |
| SseReplay.TaskStreams.EmitTaskUpdate | src/core/broker.ts:598-659 | An update is numbered and buffered as soon as somebody listens or ever has, and dropped without a number before; the buffer stays the newest suffix of the history |
| SseReplay.TaskStreams.Unsubscribe | src/core/broker.ts:513-531 | Only the given listener of the given task goes |
| SseReplay.TaskStreams.OpenStream | src/server.ts:4489-4541 | A client that presents an id of this task, however the number is spelled, is sent exactly the buffered events it missed, and nothing otherwise; the snapshot that follows carries the number of buffered events |
| SseReplay.SnapshotCursorLags | src/server.ts:4529-4541 | The snapshot id never runs ahead of the stream and equals its position exactly while the buffer has not overflowed |
| SseReplay.ReconnectSkipsNothing | src/server.ts:4501-4541 | A client that reconnects with a snapshot id misses no buffered event; what it is sent twice is exactly what the snapshot id understates |
| EventBuffer.CursorEventBuffer.Push | src/core/event-buffer.ts:23-29 | The buffer is the newest suffix of everything ever pushed |
| EventBuffer.CursorEventBuffer.Subscribe | src/core/event-buffer.ts:31-56 | A subscription returns the matching events after the cursor, in order, up to the limit; a limit of zero or less still yields one event |
| EventBuffer.RetainedIdsAreConsecutive | src/core/event-buffer.ts:18-29 | The retained ids are consecutive and end at the latest |
| EventBuffer.PagingIsComplete | src/core/event-buffer.ts:31-56 | Paging by the last id yields each retained matching event once and in order, for every limit |
| DeliveryLifecycle.EventBudget | src/core/delivery-lifecycle.ts:354-400 | Over any calls a delivery emits at most 5 * max(1, maxRetries) events, follows the transition table, and its attempt stays at most max(1, maxRetries) + 1 |
| DeliveryLifecycle.StepKeepsTrace | src/core/delivery-lifecycle.ts:354-400 | Every accepted operation lowers a rank on attempts left and status |
| DeliveryLifecycle.BudgetIsTight | src/core/delivery-lifecycle.ts:250-276 | The bound is attained: n deliveries without acknowledgement emit 5 * n events |
| DeliveryLifecycle.ExhaustedTimeoutIsAbsorbing | src/core/delivery-lifecycle.ts:250-276 | A timed-out delivery accepts a retry exactly while attempts are left, and nothing else ever |
| DeliveryLifecycle.DeliveryManager.DeliveriesAreUnique | src/core/delivery-lifecycle.ts:178-212 | In every state of the manager a run id is indexed exactly when it has a delivery, never leads to two, and no delivery has emitted more than 5 events per allowed attempt |
| DeliveryLifecycle.DurationCanBeNegative | src/core/delivery-lifecycle.ts:402-419 | A retried delivery can report a negative duration: the delivery time of an earlier attempt survives the retry |
| DeliveryLifecycle.NegativeDuration | src/core/delivery-lifecycle.ts:354-419 | The event of any accepted operation reports a negative duration exactly when the delivery had been delivered earlier than the start it counts from, its own start included; marking as delivered never does |
| DeliveryLifecycle.NegativeDurationInRuns | src/core/delivery-lifecycle.ts:354-419 | Over every run in clock order the last event, whatever its kind, reports a negative duration exactly when the delivery was last started strictly later than it was last delivered |
| DeliveryLifecycle.NegativeDurationForetold | src/core/delivery-lifecycle.ts:354-419 | The same, foretold before the last call of a run |
| DeliveryLifecycle.StartDuration | src/core/delivery-lifecycle.ts:402-419 | A start reports a negative duration exactly when an earlier attempt had already been delivered before |
| DeliveryLifecycle.HonestDurations | src/core/delivery-lifecycle.ts:402-419 | Over any calls in clock order, first attempts and attempts just delivered or acknowledged never report a negative duration |
| DeliveryLifecycle.DeliveryManager.RegisterDelivery | src/core/delivery-lifecycle.ts:178-212 | Registering a known run id returns the known delivery marked as a duplicate and emits nothing; the run index stays an exact inverse of the deliveries |
| DeliveryLifecycle.DeliveryManager.Perform | src/core/delivery-lifecycle.ts:214-276 | Each operation changes one delivery as the table allows and logs it, or changes nothing |
| ExecutionLifecycle.AtMostOnce | src/core/execution-lifecycle.ts:194-258 | In every call sequence, revived runs included, a run delivers its payload, runs and reports at most once each, each directly after the one before |
| ExecutionLifecycle.FinalIsAbsorbing | src/core/execution-lifecycle-types.ts:26-38 | Reported and cancelled runs never move again |
| ExecutionLifecycle.RevivalIsUsefulOnlyBeforeDelivery | src/core/execution-lifecycle.ts:194-214 | A run made ready again can still reach a result exactly when its payload had not been delivered |
| ExecutionLifecycle.StrandedForever | src/core/execution-lifecycle.ts:194-214 | A run revived after delivery never reports |
| ExecutionLifecycle.ExecutionManager.RequestExecution | src/core/execution-lifecycle.ts:171-192 | A requested run is new and starts its own history with one event |
| ExecutionLifecycle.ExecutionManager.RetryExecution | src/core/execution-lifecycle.ts:264-296 | A retry starts a new run of the same session and leaves the old one as it was |
| ExecutionLifecycle.ExecutionManager.Perform | src/core/execution-lifecycle.ts:373-407 | Each operation changes one run as the table allows and logs it, or changes nothing |
| ProposalLifecycle.AttemptsAreFailures | src/core/proposal-lifecycle.ts:202-212 | Over any calls the attempt counter equals the failed events of the proposal and numbers them 1, 2, 3, ... |
| ProposalLifecycle.ApplyingFollowsApproval | src/core/proposal-lifecycle.ts:241-271 | Every application directly follows an approval, every completion or failure an application |
| ProposalLifecycle.ProposalManager.Create | src/core/proposal-lifecycle.ts:139-160 | A new proposal starts its own history with one event |
| ProposalLifecycle.ProposalManager.Perform | src/core/proposal-lifecycle.ts:163-212 | The log of each proposal is a path of its transition table that ends in its status, idempotent repetitions leaving no event |
| ConferenceRooms.EventsAtMostOnce | src/core/conference-room.ts:279-294 | No room ever emits two events of one kind for one node, eviction or not |
| ConferenceRooms.ConferenceRoomManager.EveryEventIsRemembered | src/core/conference-room.ts:279-324 | In every state of the manager the latest id equals the sum of the sizes of all room indexes, no event was emitted twice, and every room keeps to its bound |
| ConferenceRooms.RoomEventBound | src/core/conference-room.ts:119-199 | A room has at most 2 + 4 * participants events |
| ConferenceRooms.KeyTextInjective | src/core/conference-room.ts:326-328 | The text keys of the index never collide, node ids with colons included |
| ConferenceRooms.ConferenceRoomManager.CreateRoom | src/core/conference-room.ts:119-134 | A new room emits its creation once |
| ConferenceRooms.ConferenceRoomManager.Invite | src/core/conference-room.ts:136-160 | Inviting returns one invitation per given node, the original one for a node invited before |
| ConferenceRooms.ConferenceRoomManager.Transition | src/core/conference-room.ts:238-277 | A transition emits its event once, a repeated one returns the original, and neither missing-record error can occur |
| ConferenceRooms.ConferenceRoomManager.CloseRoom | src/core/conference-room.ts:190-199 | Closing emits once; closing again returns the original event |
| ConferenceFanIns.LazyIsEager | src/core/conference-fan-in.ts:179-198 | Asking for the verdict at a time equals writing the timeouts of that time down first, in everything but the revision, exactly for times other than zero: zero counts as no time |
| ConferenceFanIns.DecisionTable | src/core/conference-fan-in.ts:308-385 | A conference is ready exactly when nobody is blocked or timed out, quorum is available, something was contributed, the required first chair contributed, and every remaining participant is settled; blocked and failed are characterised likewise |
| ConferenceFanIns.CountsAddUp | src/core/conference-fan-in.ts:410-417 | The status counts add up to the participants |
| ConferenceFanIns.KeysCollide | src/core/conference-fan-in.ts:208-213 | Two contributions share an idempotency key exactly when they are the same or one participant id absorbs a colon of the other key |
| ConferenceFanIns.DifferentContributionsCollide | src/core/conference-fan-in.ts:208-213 | A contribution can be dropped as the duplicate of another participant's |
| ConferenceFanIns.FindChair | src/core/conference-fan-in.ts:553-555 | The chair is the first by node id among those with that role |
| ConferenceFanIns.FanIn.CountParticipants | src/core/conference-fan-in.ts:410-417 | The counting loop counts every status |
| ConferenceFanIns.FanIn.SummarizeCategories | src/core/conference-fan-in.ts:419-426 | The counting loop counts every category |
| ConferenceFanIns.FanIn.ComputeVerdict | src/core/conference-fan-in.ts:308-394 | The verdict depends only on the participants as of the time and on the contributions |
| ConferenceFanIns.FanIn.JoinParticipant | src/core/conference-fan-in.ts:138-151 | Joining registers or resets one participant |
| ConferenceFanIns.FanIn.UpdateParticipant | src/core/conference-fan-in.ts:154-165 | An unknown participant changes nothing; a known one gets the status and, on leaving, the time |
| ConferenceFanIns.FanIn.MarkContributing | src/core/conference-fan-in.ts:168-176 | The same for a participant who contributes |
| ConferenceFanIns.FanIn.ReconcileTimeouts | src/core/conference-fan-in.ts:179-198 | Exactly the participants that were silent for too long time out; the revision moves only then |
| ConferenceFanIns.FanIn.AddContribution | src/core/conference-fan-in.ts:208-231 | A contribution is accepted exactly when its key is new, its participant known and the quota unused; keys stay unique and quotas kept |
| ConferenceFanIns.FanIn.Reset | src/core/conference-fan-in.ts:258-265 | A reset conference is as good as new |
| ConferenceFanIns.FanIn.CurrentVerdictAt | src/core/conference-fan-in.ts:250-252 | Asking changes nothing |
| HandoffLoops.ChainsDoNotLoop | src/core/handoff-scenarios.ts:117-143 | A chain of allowed handoffs that pass their path on visits no node twice and makes at most maxHops hops |
| HandoffLoops.OnlyTheEmptyIdRepeats | src/core/handoff-scenarios.ts:117-160 | Whatever the ids, a chain of allowed handoffs visits no node twice exactly when it visits the empty id at most once |
| HandoffLoops.HopsCounted | src/core/handoff-scenarios.ts:117-160 | The hops the guard counts are the hops of the chain, plus one if the origin is not the first sender, minus the empty ids visited before the last sender (none if the origin itself is empty); a chain of allowed handoffs keeps that count within its limit |
| HandoffLoops.RefusalsForetold | src/core/handoff-scenarios.ts:117-160 | For any ids and any chain that starts without a path, every outcome of the next handoff is told before the call from the nodes visited, the origin and the limit: same node, too many hops, direct loop, indirect loop, allowed |
| HandoffLoops.OneHopTooMany | src/core/handoff-scenarios.ts:117-160 | The guard lets a handoff pass that exceeds the hop limit exactly when the receiver is new to it and the chain has forgotten enough empty ids |
| HandoffLoops.EmptyIdsAreForgotten | src/core/handoff-scenarios.ts:155-160 | With empty node ids a chain of allowed handoffs returns to a node and makes three hops with a limit of two |
| HandoffLoops.ChainRefusals | src/core/handoff-scenarios.ts:117-143 | After a chain of allowed handoffs through nonempty ids every outcome is told from the chain: within the limit a return to the node before is a direct loop, a return to the origin or to an earlier node an indirect one, and everything else is allowed |
| HandoffLoops.LoopReasons | src/core/handoff-scenarios.ts:117-160 | Whatever path a context brings along, a handoff that the limit does not stop is refused exactly when the receiver is the sender, the origin or a named node of that path |
| RecoveryLedgers.PhasesEnd | src/core/handoff-scenarios.ts:166-214 | Every accepted phase change moves strictly closer to an end |
| RecoveryLedgers.RecoveryLedger.Record | src/core/handoff-scenarios.ts:228-238 | Recording keeps the key index complete and in order of insertion, and fails a handoff the loop guard refused |
| RecoveryLedgers.RecoveryLedger.GetByIdempotencyKey | src/core/handoff-scenarios.ts:256-278 | The attempts of a key followed by its recovery chain: exactly the closure under recovery links, each once |
| RecoveryLedgers.RecoveryLedger.Seal | src/core/handoff-scenarios.ts:284-309 | The attempt number is the place among the attempts recorded under the key; the recovery chain never changes it |
| RecoveryLedgers.RecoveryLedger.Summarize | src/core/handoff-scenarios.ts:316-349 | Sealed plus active handoffs are all handoffs; both tables count the sealed entries row by row and sum to their number; the average recovery is the rounded mean of the recovery times |
| RecoveryLedgers.RoundedMeanIsNearest | src/core/handoff-scenarios.ts:345-348 | The mean is rounded to the nearest integer, halves upwards, and is zero without recoveries |
| TerminalBriefs.DeliveryOrderDoesNotMatter | src/core/cross-broker-terminal-brief.ts:182-262 | For packets of one key with distinct completion times any delivery order with any duplication leaves the same content |
| TerminalBriefs.StoreHoldsNewest | src/core/cross-broker-terminal-brief.ts:182-262 | After any calls the store holds the newest packet of each key and the number of its replays |
| TerminalBriefs.NewestIsNewest | src/core/cross-broker-terminal-brief.ts:205-235 | The packet that is left is one that arrived, and none that arrived completed later |
| TerminalBriefs.CompletionNeverDecreases | src/core/cross-broker-terminal-brief.ts:205-235 | The stored completion time of a key never decreases |
| TerminalBriefs.EnqueuedAtMostOnce | src/core/broker.ts:469-478 | Each distinct packet is enqueued at most once in any run |
| TerminalBriefs.RestoreInvertsSnapshot | src/core/cross-broker-terminal-brief.ts:279-289 | Restoring a snapshot brings back every record, in whatever order it lists them |
| TerminalBriefs.RecordKeysCollide | src/core/cross-broker-terminal-brief.ts:360-366 | Two packets share a record exactly when round, origin and child agree, when a task id spells the worker, the order or the missing child of the other, or when a round or origin id swallows a separator of the other key |
| TerminalBriefs.ChildKeysCollide | src/core/cross-broker-terminal-brief.ts:360-366 | Child keys agree exactly when the packets speak for the same task, worker, order or no child, or when a task id spells the other child |
| TerminalBriefs.ColonFreeKeys | src/core/cross-broker-terminal-brief.ts:360-366 | With round and origin ids free of colons two packets share a record exactly when round and origin agree and the children are the same or confused |
| TerminalBriefs.RoundsShareARecord | src/core/cross-broker-terminal-brief.ts:209-250 | Packets of two different rounds can share a record: the later one overwrites the earlier, and an earlier one is refused as stale |
| TerminalBriefs.KeysCanCollide | src/core/cross-broker-terminal-brief.ts:360-366 | A task id can pass for a worker, for an order and for no child: the keys are equal |
| TerminalBriefs.BlankHidesWorker | src/core/cross-broker-terminal-brief.ts:300-300 | A blank child worker id hides the general worker id |
| Text.JoinsCollide | src/core/cross-broker-terminal-brief.ts:365-365 | Texts joined by a separator agree exactly when their parts do or one first part swallows a separator |
| TerminalBriefs.KeysOfOneRound | src/core/cross-broker-terminal-brief.ts:360-366 | Within one round and origin two packets share a key exactly when their children are the same or confused |
| TerminalBriefs.ProjectionStore.IngestRequest | src/core/cross-broker-terminal-brief.ts:182-262 | Ingestion rejects, replays or stores exactly as specified |
| TerminalBriefs.ProjectionStore.SnapshotAndRestore | src/core/cross-broker-terminal-brief.ts:279-289 | A store that restores its own snapshot is unchanged |
| RateLimiter.WindowsNeverOverflow | src/core/request-security.ts:53-79 | For a clock that never goes back no window holds more than the permitted number of allowed calls of a key |
| RateLimiter.WeakestSafeClock | src/core/request-security.ts:53-114 | After readings that never went back a call is safe, whatever the calls were, exactly at readings not before the latest; a limiter that allows or counts nothing is always safe |
| RateLimiter.ForgottenBurstOverflows | src/core/request-security.ts:53-114 | For every limit and window, and every reading before the latest, a full burst that a snapshot forgot overflows a window |
| RateLimiter.DecisionMatchesHistory | src/core/request-security.ts:53-79 | A call is allowed exactly when its window still has room counted over the whole history; a denial means the window is full |
| RateLimiter.SnapshotsDoNotMatter | src/core/request-security.ts:81-114 | Interleaved snapshots never change a decision |
| RateLimiter.RetryAfterIsHonest | src/core/request-security.ts:58-70 | With no other call a retry after the advertised delay is allowed exactly when the limiter allows anything at all |
| RateLimiter.BackwardClockOverflows | src/core/request-security.ts:53-79 | A clock that goes back lets three calls into a window meant for two |
| RateLimiter.InMemoryRateLimiter.Check | src/core/request-security.ts:53-79 | Filtering and recording in place decide as the specification does |
| RateLimiter.InMemoryRateLimiter.Snapshot | src/core/request-security.ts:81-114 | A snapshot drops only calls that no longer count, and lists the busiest keys first, as many as asked for, with what is left to each and when it resets |
| RateLimiter.RankingIsUnique | src/core/request-security.ts:99-104 | There is exactly one order of the keys by number of calls and then by key |
| Text.DecimalRoundTrip | src/core/broker.ts:670-687 | Numbers in event ids are read back as written |

## Left out

- Broker.InMemoryBroker.CompleteTask: does not follow the proposal, artifact and validation rows that a completion may write; whether the evidence suffices is a parameter.
- ExchangeStores.ExchangeStore.AddExchangeMessage: follows the exchange, its thread and their rows; what happens to the task itself is the task machine's, whether the metadata of a new task holds is a parameter, and the saves inside and after the call are steps of their own (PersistHot, PersistFull).
- ExchangeStores.ExchangeStore.ListExchangeMessages: leaves the order among the answers of one instant open, because the comparison in the source is inconsistent for them.
- SseReplay.AcceptedReplaysEverything: takes the reading of numerals as a parameter, exact and unbounded; the rounding of large numbers is not modelled.
- ConferenceFanIns.FindChair: orders node ids by dictionary order of characters instead of by locale.
- RateLimiter.InMemoryRateLimiter.Snapshot: orders keys of equal pressure by their fixed order instead of by locale.
- TerminalBriefs.ProjectionStore.IngestRequest: takes the redaction of summaries and the parsing of times, counts and addresses as done, and the content digest as the content itself.
- Retention.ApplyRetention: reads the clock once per pass, and a broker method reads it once per call.
- Aliasing of returned records: the source hands out live objects, the model hands out values.
- The order of task, exchange and child listings; no property here depends on it.
- Listener callbacks, state-change and profiling notifications, the task event stream and the terminal outbox beyond what is enqueued.
- Record repositories, SQLite and JSON stores: the store is the durable copy of the broker class.
- Snapshots restored into the broker, and caps or policies that change across restarts.
- Broker.InMemoryBroker.PlanAcceptedTaskWake: takes the key that request and payload make up as a parameter, and the other texts of a wake as opaque values.
- Capability profiles, GitHub request normalisation and diagnostics of tasks.
- Closeout summaries, lease and deadline queries of the managers, and the transcript artifact of the fan-in.
- HTTP routing, authentication headers, sockets, timers, dashboards, alerts, JSON-RPC and the worker client.
