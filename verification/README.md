# Hatchet in Dafny

This project models the stateful core of Hatchet, a task orchestrator, and proves what its code keeps
true. Each module is one component:

- **The durable event log.** A durable task records every call it makes as an entry at a slot: a node id
  on a branch. `BranchLookup` says which branch owns a node after any history of resets. `DurableLog`
  says what one request does to one task's log, `RequestEffects` what it leaves behind, and `EntriesWritten`
  what it writes and what it is told. The rest is about what a task finds when it makes its calls again:
  `DurableReplay` for one call, `ReplayPasses` for a whole invocation, `ReplayAfterReset` across a reset,
  `PartialReplay` where the reset names the children to replay, `TaskLifetime` for any number of restarts, and
  `ReplayLimits` for what replay depends on. `GetOrCreate` and `AppendBatch` are the imperative form: shared
  tables, many tasks in one transaction, proved to give each task what it would get alone. `IdempotencyKey`
  is the text a wait is identified by, and `IngestBuffer` the buffer that forms the batches.
- **Usage aggregators** (`UsageAggregator`): lock-free counters, flushed, evicted and sealed while writers
  add to them.
- **Message buffers** (`BufferCore`, `BufferProgress`, `BufferEviction`, `BufferIdle`): a parking flusher, a
  semaphore with a separate releaser, eviction racing enqueue, and the idle timeout on a clock.
- **The durable task listener** (`CallbackState`, `CallbackAnswers`, `TaskListener`, `AckTable`,
  `ListenerGenerations`): waiters, early completions, acknowledgements and restarts of the client.
- **Handlers** (`HandlerRegistry`, `ListenGate`): the registry of handlers and the gate that keeps one
  listen loop alive.
- **Packing and backoff** (`ChunkPacking`, `Backoff`, with `Int64` for 64-bit arithmetic).

`Options` and `Sums` hold what several modules share.

## How the code is represented

- An object the code updates under a lock is a class whose methods are proved against a function of its
  old state. A protocol between goroutines is a state machine: `Move` lists the atomic steps, `Do` says
  what each does, a `Behaviour` is any interleaving, and the main lemmas hold in every state of every
  behaviour.
- Tables are maps. Each query is what its SQL says: get by key, insert if absent
  (`pkg/repository/sqlcv1/durable_event_log.sql:315`), first writer wins for spawn keys (line 467), the
  latest node moves only up (line 69), and a new invocation starts again at node 0 (line 21). One append is
  one atomic step, as it is one transaction.
- Ids that the code draws at random are part of the request: each trigger brings the id it proposes for
  its child and the one that replaces it. Where a proof needs them to be new, `FreshIds` says so.
- Clocks are parameters or arbitrary choices of the environment; so are replies from the network, the
  outcome of a flush, and whether a buffer looks idle.
- Hashes and payloads are opaque values that are only compared. Strings are ordered by code point, which is the
  order of their UTF-8 bytes.

## Where the code does something else than its words

- `resolveBranchForNode` is not always the copy-on-write reading of the branch tree. It is one exactly when
  no ancestor's first node lies beyond the first node of a younger branch that hides it
  (`BranchLookup.LookupIsOverlayExactly`). A DAG replay forks at node 0, so after a reset at node 5 it breaks
  this, and node 5 is still read from the reset's branch (`BranchLookup.DAGReplayAfterReset`), as it is after
  a second DAG replay (`BranchLookup.SecondDAGReplayAfterReset`). A fork takes over its nodes exactly when
  every branch on its parent's walk has started by then (`BranchLookup.ForkExactly`).
- Replay is not deterministic for every successful request. A trigger that takes a node every time it is
  issued, because its key names a child without an entry, must not follow one that takes its node only once,
  and a trigger that comes to own its child must own the newest entry of it. `DurableReplay.FoundAtOnceExactly`
  is the exact condition for one request, whatever keys it repeats, and `ReplayPasses.ReplayExactly` the one
  for an invocation, in which later calls may disturb earlier ones. `ReplayLimits.SameCallsFail` is a run of
  four invocations, from the log of a new task on, whose last fails with the calls of the third;
  `ReplayLimits.FailureLosesNewKeys` shows how its lost key comes about. A task that is never reset and whose
  run requests use keys, none twice in one request, needs no condition (`TaskLifetime.EveryRepeatFinds` with
  `TaskLifetime.KeyedIsRepeatable`).
- A reset keeps what the log shows below its node and clears the rest exactly when the copy-on-write reading
  gives the node to the branch it is read from and every branch on that one's walk has started
  (`ReplayAfterReset.ResetShows`). It always does while every fork was at a node its parent can own
  (`ReplayAfterReset.OrderedIsClean`).
- The comment at `pkg/repository/durable_events.go:1752` says that later triggers with the same spawn key
  reuse the first one's child. For a key that is new in the request they do not: the child has no entry yet,
  so each of them spawns its own (`ReplayLimits.NewKeyTwiceSpawnsTwice`).
- The client documents that child entries come back in the order of the triggers
  (`pkg/client/durable_task_listener.go:664-666`). The repository sorts them by slot, which is the same
  exactly when the slots are in call order (`GetOrCreate.ReportedInCallOrderExactly`), and it is not when a
  child whose entry lies at or below the latest node is reused after a trigger that takes a node
  (`ReplayLimits.ReusedIsReportedFirst`).
- `Listen` runs its loop on the caller's context. When that ends, the loop lets go of the gate without failing
  the handlers that were added meanwhile and leaves them without a loop. Registrations are never orphaned
  exactly when no loop is started on a caller's context (`ListenGate.OrphanFreeExactly`).
- Of two overlapping waits for one key the first is left unanswered (`CallbackState.OverlapForgetsFirst`). A
  waiter is forgotten exactly when, while it is pending, its key is registered again or another waiter for it
  leaves (`CallbackState.ForgottenExactly`).
- The evictor reads the length of a buffer's channel before it takes the lock that keeps producers out, and a
  producer counts as active from when it acquires the buffer, not from when it enqueues. A buffer can be closed
  with a message in it exactly when the two gaps together can reach the idle timeout
  (`BufferIdle.ClosedIsEmptyExactly`). A sub buffer does not flush when it is stopped, so the message would stay.
- A wait condition that carries the wrong kind of payload can make the hashed text depend on the order of
  the conditions (`IdempotencyKey.MixedConditionsDiffer`). Both places that build conditions
  (`internal/services/dispatcher/server_v1.go:70-92` and `1337-1365`) build well-formed ones only, for which
  the text does not depend on it (`IdempotencyKey.WaitText`). Nothing separates the parts of the text: two
  conditions of one kind that differ in one part have different texts (`IdempotencyKey.OneFieldTells`), two that
  differ in several may have the same (`IdempotencyKey.PartsRunTogether`).

## Model

| member | source | states |
|---|---|---|
| `BranchLookup.ResolveBranchForNode` | pkg/repository/durable_events.go:987-1012 | the walk to the root, the sort and the binary search give the owner of a node, and the index is in range for every node from 0 on |
| `BranchLookup.SortSpans` | pkg/repository/durable_events.go:1003-1008 | the spans met are sorted by first node, then branch, and none is lost |
| `BranchLookup.SearchSpans` | pkg/repository/durable_events.go:1010 | the search splits the sorted spans at the node |
| `BranchLookup.LookupIsOverlayExactly` | pkg/repository/durable_events.go:987-1012 | the lookup equals "this branch from its first node on, else the parent" for all nodes if and only if no ancestor resurfaces |
| `BranchLookup.OrderedAgrees` | pkg/repository/durable_events.go:987-1012 | when no branch starts before its parent, the lookup is the copy-on-write reading for every branch and node |
| `BranchLookup.ForkExactly` | pkg/repository/durable_events.go:2826-2885 | in every tree, a reset at (n, b) gives nodes from n on to the new branch and the rest to what b saw, if and only if every branch on the walk from b starts no later than n |
| `BranchLookup.ForkOfOrdered` | pkg/repository/durable_events.go:2826-2885 | while no branch starts before its parent, that is: n is not below b's first node; and exactly then the tree stays so |
| `BranchLookup.OwnerForkExactly` | pkg/repository/durable_events.go:2826-2885 | a reset at a node of the branch it is read from keeps what the newest branch showed below and clears the rest, if and only if the copy-on-write reading gives the node to that branch and every branch on its walk has started |
| `BranchLookup.ForkKeepsOlder` | pkg/repository/durable_events.go:2826-2885 | a reset leaves the lookups of all older branches unchanged |
| `BranchLookup.DAGReplayTakesOverExactly` | pkg/repository/durable_events.go:2887-2904 | in every tree, a DAG replay owns every node if and only if every branch on the newest one's walk starts at node 0 |
| `BranchLookup.DAGReplayAfterReset` | pkg/repository/durable_events.go:2887-2904 | a concrete history in which the DAG replay does not own a node the copy-on-write reading gives it |
| `BranchLookup.SecondDAGReplayAfterReset` | pkg/repository/durable_events.go:2887-2904 | after a second DAG replay, forked from a branch that starts at node 0, that node is still not owned |
| `BranchLookup.EveryHistoryAgrees` | pkg/repository/durable_events.go:2826-2885 | after any list of resets, each at a node its branch can own, lookup and copy-on-write reading agree everywhere |
| `DurableLog.Newest` | pkg/repository/durable_events.go:1451-1454 | among a child's entries there is one on the highest branch, first by node |
| `DurableLog.MaxNodeIsMax` | pkg/repository/durable_events.go:2010-2021 | the latest node after a request is the greatest of the old one and the nodes returned |
| `RequestEffects.VerdictCases` | pkg/repository/durable_events.go:1457-1485 | what becomes of a trigger, whatever keys its request repeats: reused if and only if the log itself shows or keeps its child, else placed under the proposed id, in place under its own id, or under a replacement id |
| `RequestEffects.KnownChildGains` | pkg/repository/durable_events.go:1457-1485 | a child known before a request gains an entry only by an in-place replay of a trigger with its key |
| `RequestEffects.AppendedIsValid` | pkg/repository/durable_events.go:1760-2050 | every successful request keeps the log valid: slots on real nodes, and no two keys share a child |
| `RequestEffects.AppendedGrows` | pkg/repository/durable_events.go:1760-2050 | a successful request changes and loses no entry and no key, its new entries are shown, and of the known children only hidden ones gain any |
| `RequestEffects.ReusedAfter` | pkg/repository/durable_events.go:1439-1475 | after a request the triggers that reuse a child are those that did and those for whose key a slot was claimed |
| `EntriesWritten.RunWritesExactly` | pkg/repository/durable_events.go:2089-2155 | a successful run request answers its triggers in order: a reused child with its newest entry, any other trigger with the next free node of its branch, as existing exactly if it was there; every entry it writes is of kind run, has the trigger's call and child, is satisfied if and only if the child is cancelled or skipped, and triggered if and only if the child replays in place and had been triggered; nothing else changes but the keys and the latest node |
| `EntriesWritten.KeysExactly` | pkg/repository/durable_events.go:1686-1741 | after a request, failed or not, the known keys keep their children, and each key its triggers use has the child its first trigger proposed |
| `EntriesWritten.RunFailsExactly` | pkg/repository/durable_events.go:1105-1288 | a run request fails its determinism check if and only if a trigger lands on the entry of another call; it takes its batch down if and only if none does and a child reused by position has a newest entry of another call |
| `EntriesWritten.WaitOrMemoExactly` | pkg/repository/durable_events.go:2164-2215 | a wait or memo gets the entry at the next node, fails if it is of another call, or writes its own there: a wait open, a memo satisfied if and only if it brings its payload |
| `DurableReplay.FindsExactly` | pkg/repository/durable_events.go:1031-1396 | a request whose keys are known returns exactly the given existing entries if and only if each trigger finds its own, and then changes only the latest node |
| `DurableReplay.StaysFoundExactly` | pkg/repository/durable_events.go:1398-1488 | a request that finds its entries still finds them at any later log if and only if no hidden child of it gained a newer entry, any entry, or a result that is kept, as its trigger was reused or not |
| `DurableReplay.NodesTakenAfter` | pkg/repository/durable_events.go:2089-2120 | issued again, a trigger lands exactly as many nodes earlier as triggers have settled before it |
| `DurableReplay.TriggerIsFound` | pkg/repository/durable_events.go:2089-2170 | issued again at once, a trigger finds what it got if and only if it reused a child, or settled on its child's newest slot, or nothing settled before it |
| `DurableReplay.FoundAtOnceExactly` | pkg/repository/durable_events.go:2061-2225 | any successful request, issued again at once, finds what it got if and only if no trigger that takes a node each time follows one that settles, and every trigger that settles claims its child's newest slot |
| `ReplayPasses.CallLasts` | pkg/repository/durable_events.go:1844-2028 | a successful call finds its entries at any later log if and only if it would have found them at once and none of its hidden children was disturbed since; what is not found at once is never found later |
| `ReplayPasses.ReplayExactly` | pkg/repository/durable_events.go:1844-2028 | restarting and making the calls of an invocation again gives each its (node, branch) back, all marked existing, exactly as far as the calls last, with no new entry or key, whatever was satisfied or triggered meanwhile |
| `ReplayPasses.PlainReplayExactly` | pkg/repository/durable_events.go:1844-2028 | where no call asks for orphans to be replayed, the replay finds everything if and only if each call was ordered and used no new key twice |
| `ReplayAfterReset.ResetShows` | pkg/repository/durable_events.go:2826-2885 | for every log, a reset at a node of the branch it is read from keeps what is shown below and clears the rest if and only if the reset is clean |
| `ReplayAfterReset.OrderedIsClean` | pkg/repository/durable_events.go:2826-2885 | while branches are forked at nodes their parents can own every reset is clean, and it stays so |
| `ReplayAfterReset.FoundAfterReset` | pkg/repository/durable_events.go:2826-2885 | a call that finds its entries finds them after the reset if and only if the children it reused are shown below the reset node or kept, and its own slots lie below it and their children are not |
| `ReplayAfterReset.CallsStayOnBranch` | pkg/repository/durable_events.go:2061-2225 | after any calls since the reset, successful or not, the new branch shows every node from the reset node on and its entries lie at or below the latest node |
| `ReplayAfterReset.KeepPrefixReplaceSuffix` | pkg/repository/durable_events.go:2826-2885 | after an invocation, a reset at node n and a restart, the calls made again get their entries back exactly as far as they survive the reset and add none, and every entry that any later call asks for from node n on is a new one on the new branch, failed calls and calls across n included |
| `PartialReplay.OrphanIsKeptExactly` | pkg/repository/durable_events.go:1462-1485 | after a clean reset and any calls, a trigger that replays orphans is handed the existing result of a child the reset has hidden if and only if the reset named the children to replay, neither this one nor its parent is among them, and the child had finished; otherwise it gets a new entry for that child; after a reset that named none it always does |
| `PartialReplay.OrphanIsReplaced` | pkg/repository/durable_events.go:1462-1467 | a trigger that does not replay orphans never gets a hidden child's entry; what it writes is for a replacement child |
| `PartialReplay.RerunIsFound` | pkg/repository/durable_events.go:1451-1454 | a child that runs again from the reset node on is found at its new entry, at the first of them, and no longer at the old one |
| `PartialReplay.NamedByReset` | pkg/repository/durable_events.go:2826-2885 | the set a reset was given stays with its branch through any calls, and a reset without one leaves none |
| `TaskLifetime.NewCall` | pkg/repository/durable_events.go:1844-2028 | a new call of a task on one branch leaves every key's child with its one entry and is found again if and only if it is repeatable |
| `TaskLifetime.KeyedIsRepeatable` | pkg/repository/durable_events.go:2089-2120 | a request whose triggers have distinct keys is repeatable, whatever policies for orphans they name |
| `TaskLifetime.StepKeeps` | pkg/repository/durable_events.go:1844-2028 | restarts, marks, repeated calls, new calls and stale requests keep the invariant |
| `TaskLifetime.EveryRepeatFinds` | pkg/repository/durable_events.go:1844-2028 | in every state of every life of a task that is never reset, the next call to be made again finds exactly the entries it got when it was first made, if and only if it was repeatable then, and adds none; every key's child has exactly one entry |
| `TaskLifetime.HistoryIsKept` | pkg/repository/durable_events.go:1686-1741 | the calls made, the slots each got and the child of every key stay the same for the rest of the task's life |
| `TaskLifetime.StaleChangesNothing` | pkg/repository/durable_events.go:1844-1864 | in every life, a request sent before a restart is turned away at any time after it and changes nothing |
| `ReplayLimits.ReplayedExactlyWhenOrdered` | pkg/repository/durable_events.go:2089-2120 | any successful request issued again at the same position, with other ids, returns exactly its entries if and only if it is ordered and settles on newest slots |
| `ReplayLimits.OutOfOrderMoves` | pkg/repository/durable_events.go:2118-2120 | a trigger that takes a node each time lands exactly as many nodes earlier, when it is issued again, as triggers settled before it |
| `ReplayLimits.OlderSlotMoves` | pkg/repository/durable_events.go:1451-1454 | a trigger that settles without claiming its child's newest slot is handed another entry when it is issued again |
| `ReplayLimits.SameCallsFail` | pkg/repository/durable_events.go:1105-1141 | a run from a new task's log, four invocations call by call: the calls of the third succeed and the same calls in the fourth fail their determinism check |
| `ReplayLimits.NewThenLostSucceeds` | pkg/repository/durable_events.go:2061-2225 | in that run, a request with a new key and a lost key succeeds and creates two entries |
| `ReplayLimits.NewThenLostIsNotReplayed` | pkg/repository/durable_events.go:1105-1141 | in that run, the same request fails in the next invocation and leaves the log as it was |
| `ReplayLimits.FailureLosesNewKeys` | pkg/repository/durable_events.go:1911-1914 | a request that fails its determinism check creates no entry, yet its new keys stay recorded, and as long as the log is not reset their children get no entry and their triggers take a node each time |
| `ReplayLimits.NewKeyTwiceSpawnsTwice` | pkg/repository/durable_events.go:1457-1467 | two triggers of one request with the same new key get two children at two nodes |
| `ReplayLimits.ReusedChildIsFound` | pkg/repository/durable_events.go:1265-1270 | the failure "no entry for a skipped child" is unreachable, whatever the request |
| `ReplayLimits.ReplayedExactlyWhenTriggered` | pkg/repository/durable_events.go:1477-1484 | a placed trigger is marked for in-place replay if and only if it keeps its child's id and that child's newest entry was triggered |
| `ReplayLimits.ReusedIsReportedFirst` | pkg/repository/durable_events.go:1376-1390 | where a child is reused after a trigger that takes a node, the results come in trigger order only if the child's entry lies above the latest node |
| `GetOrCreate.NewestByChild` | pkg/repository/durable_events.go:1252-1263 | one scan of the rows by node finds the newest entry of each child asked for |
| `GetOrCreate.CheckDeterminism` | pkg/repository/durable_events.go:1105-1141 | the check passes if and only if every filled slot holds an entry for the same call |
| `GetOrCreate.CreateEntries` | pkg/repository/durable_events.go:1159-1181 | a task's missing entries are added, existing ones and other tasks' rows are untouched |
| `GetOrCreate.CheckSkips` | pkg/repository/durable_events.go:1223-1288 | the pass goes on if and only if each reused child has an entry and, where inputs are checked, they agree |
| `GetOrCreate.CollectResults` | pkg/repository/durable_events.go:1340-1393 | the caller gets every call's result once, sorted by node and branch |
| `GetOrCreate.ReportedInCallOrderExactly` | pkg/repository/durable_events.go:1385-1390 | the slots come back in call order if and only if they are in slot order, repeated slots included |
| `GetOrCreate.GetOrCreateForTasks` | pkg/repository/durable_events.go:1031-1396 | a batch of distinct tasks aborts if and only if some task would abort alone; otherwise each task's entries, results and rejection are its own, and no other row changes |
| `AppendBatch.ResolveKeys` | pkg/repository/durable_events.go:1686-1741 | the batched upsert gives each task the spawn keys it would have alone: known keys keep their child, new ones get the first proposal |
| `AppendBatch.SkipExactly` | pkg/repository/durable_events.go:1750-1754 | a trigger is marked skip if and only if its key was known to the log or used earlier in the request |
| `AppendBatch.ResolveFor` | pkg/repository/durable_events.go:1743-1755 | every trigger of a task gets its child and skip mark |
| `AppendBatch.ScanChildren` | pkg/repository/durable_events.go:1439-1455 | one scan tells which children are on the active branch and each one's newest entry |
| `AppendBatch.ResolveOrphans` | pkg/repository/durable_events.go:1398-1488 | every trigger gets its verdict, and the set of children to replay contains exactly the in-place ones whose newest entry was triggered; what the verdicts come to is `PartialReplay.OrphanIsKeptExactly` |
| `AppendBatch.PlanRequest` | pkg/repository/durable_events.go:2061-2225 | the planned entries of wait, memo and run requests, which `EntriesWritten` says field by field |
| `AppendBatch.UpdateFile` | pkg/repository/durable_events.go:2001-2028 | the latest node becomes the highest node returned, and never less than it was |
| `AppendBatch.AppendAll` | pkg/repository/durable_events.go:1760-2050 | a batch aborts if and only if some task would abort alone; otherwise every task has the log, results or error it would have alone, stale and failing tasks included, and other tasks' logs are unchanged |
| `IdempotencyKey.WaitText` | pkg/repository/durable_events.go:840-885 | for well-formed conditions the hashed text is the same for every permutation and every way to break ties |
| `IdempotencyKey.PermutationsAgree` | pkg/repository/durable_events.go:840-885 | two sorted arrangements of the same well-formed conditions have the same text |
| `IdempotencyKey.TiesAgree` | pkg/repository/durable_events.go:841-870 | well-formed conditions tie in the comparator if and only if they agree in everything the text shows |
| `IdempotencyKey.StrLessExactly` | pkg/repository/durable_events.go:846 | a string comes before another if and only if it is a beginning of it or has the smaller character at the first place where they differ |
| `IdempotencyKey.SortedFieldByField` | pkg/repository/durable_events.go:841-870 | sorted conditions ascend by expression, then data key, then sleeps before events, then duration or event key |
| `IdempotencyKey.OneConditionTells` | pkg/repository/durable_events.go:872-884 | two waits that differ in one condition have the same text if and only if the two conditions have |
| `IdempotencyKey.OneFieldTells` | pkg/repository/durable_events.go:872-884 | conditions of one kind that differ in one of expression, data key and duration or event key have different texts |
| `IdempotencyKey.PartsRunTogether` | pkg/repository/durable_events.go:872-884 | two conditions that differ in expression and data key and have the same text |
| `IdempotencyKey.MixedConditionsDiffer` | pkg/repository/durable_events.go:841-884 | a sleep carrying an event key ties with a plain sleep, and the text depends on their order |
| `IngestBuffer.Partition` | pkg/repository/durable_events.go:340-348 | each flush batches the first request of every task and defers the rest in order |
| `IngestBuffer.FirstsAreOnePerTask` | pkg/repository/durable_events.go:340-348 | a batch has at most one request per task |
| `IngestBuffer.PartitionConserves` | pkg/repository/durable_events.go:340-348 | every request is batched or deferred, once |
| `IngestBuffer.BatchedIsEarliest` | pkg/repository/durable_events.go:340-348 | a batched request comes before every other request of its task |
| `IngestBuffer.PartitionKeepsOrder` | pkg/repository/durable_events.go:340-348 | batched and deferred requests keep the order of their submission |
| `IngestBuffer.Buffer.Submit` | pkg/repository/durable_events.go:278-297 | a submission joins the pending list and either flushes all of it or leaves a timer scheduled |
| `IngestBuffer.Buffer.TakePending` | pkg/repository/durable_events.go:314-326 | a timer takes the whole pending list |
| `IngestBuffer.FlushesWhenFullExactly` | pkg/repository/durable_events.go:278-297 | a submission flushes the whole pending list if and only if it fills the batch, and starts a timer if and only if it does not and none is scheduled |
| `IngestBuffer.FewTimers` | pkg/repository/durable_events.go:284-326 | in every run there is one full batch that was flushed for every timer besides the scheduled one |
| `IngestBuffer.AnsweredAtMostOnce` | pkg/repository/durable_events.go:267-409 | in every run each submitted request is in exactly one place: pending, in one flush, or answered once |
| `IngestBuffer.IngestedAtMostTwice` | pkg/repository/durable_events.go:372-409 | in every run no request is ingested more than twice or answered without being ingested |
| `IngestBuffer.NothingWaitsUnwatched` | pkg/repository/durable_events.go:284-326 | a non-empty pending list has a timer, stale timers included; running flushes stay within the semaphore, one request per task; only a request ingested alone gets a batch-wide error |
| `IngestBuffer.EveryStepWeighsLess` | pkg/repository/durable_events.go:378-408 | every flush step, deferral and split retry loses weight |
| `IngestBuffer.EveryRequestIsAnswered` | pkg/repository/durable_events.go:267-409 | once submissions stop the buffer goes quiet in boundedly many steps, and then every request was answered exactly once; what it was told is `IngestBuffer.EveryAnswerIsDue` |
| `IngestBuffer.EveryAnswerIsDue` | pkg/repository/durable_events.go:382-404 | in every run every answer comes from a finished append of a batch that held the request, and is what that append reported: the batch's error, only if the request was alone in it, else its task's error, else its task's result |
| `IngestBuffer.FinishedIsTold` | pkg/repository/durable_events.go:382-404 | an append that finishes without being split has told every caller in its batch what it is due |
| `IngestBuffer.FinishTells` | pkg/repository/durable_events.go:378-404 | a batch that fails as a whole is split and answers nobody if and only if it holds several requests |
| `UsageAggregator.SignTellsSealed` | pkg/analytics/aggregating.go:52-66 | an increment comes out negative if and only if the counter was sealed |
| `UsageAggregator.StepKeeps` | pkg/analytics/aggregating.go:117-196 | every atomic step of writers and flusher keeps the invariant |
| `UsageAggregator.NothingIsLost` | pkg/analytics/aggregating.go:226-283 | under every interleaving, what was flushed plus what live counters hold is what was counted, per key; the key count is the map size minus stores not yet counted plus deletes not yet uncounted; no call is dropped after it met a sealed counter; when one is dropped is `UsageAggregator.DroppedOnlyAtCap` |
| `UsageAggregator.DroppedOnlyAtCap` | pkg/analytics/aggregating.go:171-180 | a call is dropped only under a cap on keys, and only if since it began the key count was at the cap and after that its key was not in the map |
| `UsageAggregator.NoneDroppedBelowCap` | pkg/analytics/aggregating.go:171-180 | while the key count stays below the cap, and without a cap always, no call is ever dropped |
| `UsageAggregator.StoredOnlyBelowCap` | pkg/analytics/aggregating.go:171-190 | a key comes into the map only by a call for it that since it began has seen the key count below the cap, or whose increment has met a sealed counter |
| `UsageAggregator.KnownKeyIsCounted` | pkg/analytics/aggregating.go:160-169 | a call whose key stays in the map looks once and is counted by its first increment |
| `UsageAggregator.VisitReportsOrEvicts` | pkg/analytics/aggregating.go:239-283 | whatever writers do meanwhile, a flush of a counter that holds something reports exactly that, and one of an idle counter takes it out of the map, seals it and reports only what came in between |
| `UsageAggregator.DrainedMeansReported` | pkg/o11yusage/aggregating.go:156-208 | when the flusher rests and live counters are empty, every key was reported exactly what was counted |
| `BufferCore.StepKeeps` | internal/msgqueue/mq_buffer_core.go:124-245 | every channel operation keeps the invariant |
| `BufferCore.BufferIsSafe` | internal/msgqueue/mq_buffer_core.go:124-245 | in every state of every run no message sits in a parked buffer unannounced, every message is delivered, in flight or queued exactly once, with one flush at a time in order, and tokens equal running flushes plus releases not yet done |
| `BufferCore.ReleasesNeverBlock` | internal/msgqueue/mq_buffer_core.go:187-229 | the releaser always finds a token, and a finished flush always finds room for its release |
| `BufferProgress.FlushStartsExactly` | internal/msgqueue/mq_buffer_core.go:137-237 | a flush is started if and only if a tick or an early release finds messages, a message is announced and flushes are immediate, or the buffer stops and drains; a tick parks the flusher if and only if the channel is empty |
| `BufferProgress.PromiseLasts` | internal/msgqueue/mq_pub_buffer.go:165-223 | once a flush is started while messages wait and a token is to be had, some flush delivers, whatever the others do |
| `BufferProgress.ComesToRest` | internal/msgqueue/mq_buffer_core.go:124-245 | left alone the buffer comes to rest after boundedly many steps |
| `BufferProgress.RestMeansDelivered` | internal/msgqueue/mq_buffer_core.go:124-245 | at rest a parked buffer is empty, and an empty channel means that every message was delivered |
| `BufferProgress.EveryMessageIsDelivered` | internal/msgqueue/mq_buffer_core.go:124-245 | every round of the flusher delivers at least one message, so after as many as there are messages all are delivered, those of blocked producers included |
| `BufferIdle.ClosedIsEmptyExactly` | internal/msgqueue/mq_pub_buffer.go:44-60 | a closed buffer has an empty channel, in every run, if and only if the longest time from acquire to enqueue plus the longest time from finding it empty to closing it is below the idle timeout |
| `BufferIdle.StepKeeps` | internal/msgqueue/mq_buffer_core.go:91-122 | every step of the clock, producers, flushes and evictor keeps what the timeout is compared with |
| `BufferEviction.EvictionIsSafe` | internal/msgqueue/mq_buffer_core.go:87-122 | in every state a producer holds only an open, running buffer that is the map's own; the evictor deletes the very buffer it closed; a buffer that lost the store race receives nothing |
| `BufferEviction.ClosedIsFinal` | internal/msgqueue/mq_pub_buffer.go:44-60 | a closed buffer stays closed, receives nothing more, and never returns to the map |
| `BufferEviction.ReleaseNeverBlocks` | internal/msgqueue/mq_buffer_core.go:104-106 | a producer's read lock can always be given back |
| `BufferEviction.EveryMessageArrives` | internal/msgqueue/mq_pub_buffer.go:74-127 | in every run the buffers of a key have received exactly the messages its producers are done with, each as often as it was sent |
| `BufferEviction.ProducersNeverBlock` | internal/msgqueue/mq_pub_buffer.go:83-107 | a producer that is not done can always go on, and looks in the map again only after it met a closed buffer |
| `BufferEviction.NothingLeaks` | internal/msgqueue/mq_pub_buffer.go:44-104 | every buffer is open in the map or stopped, or its creator or the evictor is about to see to it |
| `BufferEviction.ClosedOnlyWhenIdle` | internal/msgqueue/mq_buffer_core.go:108-122 | only the evictor closes a buffer, one it found idle with no producer on it |
| `BufferEviction.StepKeeps` | internal/msgqueue/mq_sub_buffer.go:184-220 | every step of producers and evictor keeps the invariant |
| `CallbackState.EveryRunKeeps` | pkg/client/durable_task_listener.go:337-440 | after any list of operations pending and registered-at keys agree, contain the newly pending ones, are disjoint from buffered completions, a terminal state is empty, and no send was dropped |
| `CallbackState.ForgottenExactly` | pkg/client/durable_task_listener.go:745-781 | in every run a waiter that has not left is neither pending nor answered if and only if, while it was pending, its key was registered again or another waiter for it left |
| `CallbackState.NoWaiterIsForgotten` | pkg/client/durable_task_listener.go:745-781 | while waits for one key do not overlap, every waiter that has not left is pending or answered |
| `CallbackState.LostStays` | pkg/client/durable_task_listener.go:337-440 | a channel that is empty and that no key leads to stays so under every operation, registrations included |
| `CallbackState.OverlapForgetsFirst` | pkg/client/durable_task_listener.go:337-365 | in any state, registering a key that is pending leaves the first wait unanswered, whatever follows |
| `CallbackAnswers.ToldExactly` | pkg/client/durable_task_listener.go:337-440 | in every run a waiter's channel holds a result if and only if a step told it so: the completion of its key that came while it was pending or was kept for it unexpired, an error for its key, a clean-up that covers it, or the terminal error |
| `CallbackAnswers.CompletingDelivers` | pkg/client/durable_task_listener.go:970-981 | completing a pending key puts exactly that completion into its channel and leaves every other channel alone |
| `CallbackAnswers.KeptExactly` | pkg/client/durable_task_listener.go:1228-1249 | a completion is kept if and only if it came while nobody waited and since then was not replaced, handed out, cleaned up or wiped, and no operation came after it expired |
| `CallbackAnswers.TerminalExactly` | pkg/client/durable_task_listener.go:225-250 | the state answers with an error if and only if it was terminated with it and neither started nor terminated since |
| `CallbackAnswers.RegisteredAtExactly` | pkg/client/durable_task_listener.go:350-357 | the time noted for a pending key is that of the registration of its channel |
| `CallbackAnswers.NewlyExactly` | pkg/client/durable_task_listener.go:1131-1160 | a pending key is still to be reported if and only if it was registered after the last report |
| `CallbackAnswers.HighestExactly` | pkg/client/durable_task_listener.go:966-969 | the order noted for an invocation is the highest received since its last clean-up, and there is one if and only if any was received |
| `TaskListener.DurableTaskListener.AddPendingCallback` | pkg/client/durable_task_listener.go:337-365 | a wait is answered at once with the terminal error or a buffered completion, or enrolled |
| `TaskListener.DurableTaskListener.DispatchEntryCompleted` | pkg/client/durable_task_listener.go:952-984 | a completion reaches its waiter or is buffered until it expires, and the highest order is recorded; what waiters get over a run is `CallbackAnswers.ToldExactly` |
| `TaskListener.DurableTaskListener.DispatchCallbackError` | pkg/client/durable_task_listener.go:1070-1081 | an error reaches the waiter it names, and nothing in a terminal state |
| `TaskListener.DurableTaskListener.CleanupTaskState` | pkg/client/durable_task_listener.go:402-422 | every wait of the task up to the invocation is failed and forgotten, with its completions and orders |
| `TaskListener.DurableTaskListener.RemovePendingCallback` | pkg/client/durable_task_listener.go:652-662 | a waiter that leaves takes its key out, whoever is waiting for it |
| `TaskListener.DurableTaskListener.Reopen` | pkg/client/durable_task_listener.go:233-234 | a start ends the terminal state and changes nothing else |
| `TaskListener.DurableTaskListener.TerminateCallbackState` | pkg/client/durable_task_listener.go:1283-1300 | every waiter is failed once and the state is emptied and terminal |
| `TaskListener.DurableTaskListener.PruneExpiredCompletions` | pkg/client/durable_task_listener.go:1240-1249 | exactly the expired completions go |
| `TaskListener.DurableTaskListener.LongPendingCallbackKeys` | pkg/client/durable_task_listener.go:1162-1178 | the keys reported again are those pending for at least the minimum |
| `TaskListener.DurableTaskListener.TakeNewlyPendingCallbackKeys` | pkg/client/durable_task_listener.go:1145-1160 | the newly pending keys are taken and cleared |
| `TaskListener.DurableTaskListener.TakeAllPendingCallbackKeys` | pkg/client/durable_task_listener.go:1131-1143 | all pending keys are taken and none is newly pending afterwards |
| `TaskListener.WorkerStatusRequests` | pkg/client/durable_task_listener.go:1180-1227 | every key is reported once, in order, in full requests but the last, each naming the received order of each of its invocations once |
| `AckTable.SendsNeverBlock` | pkg/client/durable_task_listener.go:1251-1275 | in every interleaving each ack channel is sent to at most once, so no ack send blocks |
| `AckTable.ToldExactly` | pkg/client/durable_task_listener.go:1022-1050 | in every interleaving an ack channel holds an answer if and only if a response, an error, a reset or a clean-up took its key with that answer and it was sent; it stays empty for good if and only if its key was withdrawn or registered again while it waited |
| `ListenerGenerations.GenerationsAreSafe` | pkg/client/durable_task_listener.go:204-272 | in every interleaving no wait goes unreported, at most one receive loop is alive, and no finished generation ends a wait registered after the next start |
| `ListenerGenerations.BehaviourKeepsInv` | pkg/client/durable_task_listener.go:442-454 | the done channel names the one loop that may be alive, and a terminal state has no pending wait |
| `ListenerGenerations.TakesWaitsWhileUp` | pkg/client/durable_task_listener.go:225-272 | while its stream is up the state takes waits, and once the listener has stopped it answers them at once |
| `ListenerGenerations.StartMeansRunning` | pkg/client/durable_task_listener.go:204-246 | a start returns only when the listener runs or its own context ends, and makes a generation only if every earlier one is gone |
| `ListenerGenerations.StartNeverSticks` | pkg/client/durable_task_listener.go:204-246 | a start that cannot go on waits for a generation that is still alive |
| `ListenerGenerations.WaitsEndExactly` | pkg/client/durable_task_listener.go:442-454 | a wait ends by its answer, by Stop or by its loop, and by nothing else |
| `ListenerGenerations.PendingIsReported` | pkg/client/durable_task_listener.go:337-365 | in every interleaving a pending wait was reported to the engine or is in the set to be reported |
| `HandlerRegistry.Registry.Store` | pkg/client/handler_registry.go:42-87 | the registration gets a new id and only its own place changes |
| `HandlerRegistry.Registry.Remove` | pkg/client/handler_registry.go:66-86 | a remove takes out what its own store registered, or nothing |
| `HandlerRegistry.StaleRemoveKeepsReplacement` | pkg/client/handler_registry.go:42-87 | a handler registered again survives the removal of the one it replaced |
| `HandlerRegistry.Registry.RemoveSession` | pkg/client/handler_registry.go:89-103 | exactly the named place is emptied |
| `HandlerRegistry.Registry.HasAny` | pkg/client/handler_registry.go:105-116 | true if and only if some handler is registered |
| `HandlerRegistry.Registry.Keys` | pkg/client/handler_registry.go:118-129 | exactly the keys with a handler |
| `HandlerRegistry.Registry.Snapshot` | pkg/client/handler_registry.go:131-148 | every registration of the key, once |
| `HandlerRegistry.Registry.RemoveRegistrations` | pkg/client/handler_registry.go:150-173 | exactly the listed registrations go; one stored since the list was made stays |
| `HandlerRegistry.Registry.FailAll` | pkg/client/handler_registry.go:175-191 | the registry is emptied, each registration counted once and told at most once |
| `HandlerRegistry.AutoNamesDiffer` | pkg/client/handler_registry.go:46-52 | generated session names never repeat |
| `ListenGate.GateIsSafe` | pkg/client/handler_registry.go:194-280 | in every interleaving at most one loop holds the gate and a failed add leaves nothing; and until a caller's context ends under its loop, no returned registration is without a loop while the stream is open |
| `ListenGate.OrphanFreeExactly` | pkg/client/listener.go:350-393 | registrations are never orphaned if and only if no loop may be started on a caller's context |
| `ListenGate.AddFailsExactly` | pkg/client/durable_listener.go:100-133 | in every interleaving an add fails if and only if it finds the stream closed, cannot connect, or fails to send twice |
| `ListenGate.StoredIsRegistered` | pkg/client/durable_listener.go:100-133 | in every interleaving the handler of an add that came past its registration is registered, unless it was unregistered or a loop has failed every handler since |
| `ListenGate.CallerLoopOrphans` | pkg/client/listener.go:384-393 | a caller listens, a handler is added, the caller's context ends: the handler is left without a loop |
| `ListenGate.StepKeeps` | pkg/client/durable_listener.go:195-259 | every step of adders, listeners and loops keeps the gate's invariant while no caller's context has ended |
| `ChunkPacking.GreedyIsPacking` | pkg/client/admin.go:568-582 | greedy chunks concatenate to the input, none is empty, and each fits or is a single oversized item |
| `ChunkPacking.GreedyIsOptimal` | pkg/client/admin.go:568-582 | no packing under the same limits uses fewer chunks |
| `ChunkPacking.NextChunkEnd` | pkg/client/admin.go:570-582 | the chunk is the longest that fits |
| `ChunkPacking.BulkTriggerChunked` | pkg/client/admin.go:588-631 | the requests are sent greedily, run ids are concatenated, and errors are collected with one merged collision error |
| `ChunkPacking.AnswersInOrder` | pkg/client/admin.go:588-631 | the caller gets the run ids of the calls that succeeded and the failures, each in call order, and one error with the ids and collisions of all calls that collided if and only if some call reported a collision |
| `ChunkPacking.NextWakeBatch` | internal/msgqueue/pubsub.go:93-99 | the batch is the longest that fits |
| `ChunkPacking.PubStreamWakes` | internal/msgqueue/pubsub.go:89-112 | the wakes are published greedily; a message that cannot be built ends the loop, a failed publication does not |
| `ChunkPacking.ReportsInOrder` | internal/msgqueue/pubsub.go:89-112 | the errors reported are those of the failed publications, in order |
| `ChunkPacking.WireSizeIsBase64` | internal/msgqueue/pubsub.go:81-86 | a wake counts four bytes for every three begun of its JSON, and three for separators |
| `Backoff.BackoffInterval` | internal/queueutils/backoff.go:12-35 | the wrapped 64-bit computation is half of min(max, base * 2^retries), at least one millisecond |
| `Backoff.SleepDuration` | internal/queueutils/backoff.go:31-41 | the sleep lies in [h, 2h) without overflow |
| `Backoff.OverflowIsCaught` | internal/queueutils/backoff.go:17-29 | dividing back detects overflow of the product for every base, limit and retry count |
| `Backoff.BackoffIsMonotone` | internal/queueutils/backoff.go:12-29 | more retries never shorten the delay |

## Left out

- Payload storage, satisfied orders and the completion matches registered for replayed children: an entry is satisfied and triggered by marks that may happen at any time.
- Triggering of pending runs and waits, event lookback and memo completion: database plumbing after the append.
- Marshalling failures of trigger inputs and conditions: the model has no input that cannot be marshalled.
- ReplayAfterReset.KeepPrefixReplaceSuffix: it speaks of the calls that a plain restart would find; a call that was disturbed before the reset may be found again after it, which is not followed up.
- TaskLifetime: an invocation is followed up to the first call that was not repeatable; that one gets a determinism error or other entries than it had, and what the task does from there on is not modelled.
- GetOrCreate.GetOrCreateForTasks: the existing rows are read from the table itself, not through a copy of the rows asked for, and row ids are left out.
- IngestBuffer: the order of one task's requests across separate flushes is not kept by the code and not claimed; answers of one flush are one step.
- UsageAggregator: first and last event times are left out, and the total of all increments stays below 2^62, as the seal needs.
- BufferCore: errors returned to publishers and the flags of a flushed message are left out.
- BufferEviction: whether a buffer is empty and idle is an arbitrary answer; `BufferIdle` follows one buffer on a clock instead.
- TaskListener: the parts of `CleanupTaskState` and `dispatchError` that concern acknowledgements are steps of `AckTable`.
- AckTable: which keys one answer, reset or clean-up claims is left open.
- CallbackState: sends are recorded per channel instead of being made; timers only appear as the times passed in.
- ListenGate: connecting and reconnecting are single steps that may fail.
- Backoff: the random draw is a parameter.
- Command-line programs, REST and cron clients, encryption, the frontend, match conditions and load tests: they would add plumbing or easy members.
