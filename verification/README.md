# Plaid, modelled in Dafny

Plaid runs WASM rules on a stream of messages. This project models the parts of its runtime, and of the
library its rules are compiled against, whose correctness depends on locks, queues, loops and two-call
protocols, and proves what they promise over every input, run and interleaving.

`dafny verify dfyconfig.toml` checks everything.

| file | component |
|---|---|
| `Machine.dfy` | integer casts and wrap-around, results, error codes |
| `Storage.dfy`, `Quota.dfy`, `CriticalSection.dfy`, `Host.dfy`, `Guest.dfy` | the storage provider; byte counters under locks as a step system; why a locked call acts as one block; the host's storage calls; the guest's ask-size-then-act protocol |
| `Memory.dfy`, `Framing.dfy` | bounds-checked transfers into guest memory; how a message reaches a rule |
| `Budget.dfy`, `Executor.dfy` | logback budgets; the work a queue of messages can cause |
| `Shutdown.dfy`, `ExactlyOnce.dfy` | graceful shutdown as a step system: safety, progress, termination; how often a message is run |
| `DataGenerator.dfy`, `Recovery.dfy`, `SeenCache.dfy`, `RestartCache.dfy`, `CleanRestarts.dfy`, `GeneratorLoop.dfy` | polling windows, de-duplication and checkpoints as a step system; which restarts lose logs; when the bounded cache suffices, without a restart, with one and with any number; the polling loop as a refinement |
| `Migration.dfy`, `Secrets.dfy`, `Pagination.dfy`, `GetCache.dfy`, `BodyReader.dfy`, `Signing.dfy` | namespace migration, secret interpolation, paged collection, cached GET answers, bounded body reading, the signature threshold |

Concurrent components are labelled step systems: a state, events, `Apply` for one atomic action of one
thread, and `Run` over an arbitrary sequence of events, so that a statement about `Run` covers every
interleaving. Imperative code is a method or a class with its own specification.

## Where code and documentation differ

The code is followed in each case.

- The guest's `delete` is documented to remove the key. When the value is empty both host calls are size
  queries and nothing is removed (`Guest.DeleteAlone`).
- A guest `insert` that returns an error may have written (`Guest.InsertErrorHasWritten`; exactly when, `Guest.Insert`).
- `apply_migration` does not ask for more than a mapping. Distinct new keys are not enough; the exact
  condition is `Migration.OrderIrrelevantIffNoClobber`.
- A signature threshold of zero still requires one signature (`Signing.CheckModuleSignatures`).
- Data generators are meant to pick up where they left off. A restart that finds a key missing, cannot read
  one, cannot parse the mark or finds it too old can lose logs, and only those can
  (`Recovery.LosesIffNotResumed`). A mark that is too old loses no more than the code warns of, the logs
  older than the catch-up time (`DataGenerator.OnlyOldLogsAreLost`). A clock set back by a second or more
  makes a fresh mark count as too old (`DataGenerator.ClockSetBack`).
- A delayed logback is meant to be sent once. It is sent again when deleting it from storage fails, an error
  the code only logs (`ExactlyOnce.FailedDeletionRunsTwice`); otherwise every queued message is run exactly once
  (`ExactlyOnce.RunExactlyOnce`).
- Overlapping windows are meant to be harmless because seen logs are skipped. Without a restart they are if
  and only if the cache is as large as the busiest second (`SeenCache.RepeatsIffCacheTooSmall`). That is not
  enough across a restart, even a clean one, because reloading the IDs reverses their order
  (`RestartCache.NarrowIsNotEnough`); the exact condition is `CleanRestarts.RepeatsIffOvertaken`.

## Model

| member | source | states |
|---|---|---|
| `Storage.SizeOfPut` | runtime/plaid/src/functions/storage.rs:105-113 | Overwriting a key trades exactly the old entry's key and value bytes for the new ones in the reference usage, which is defined without any order. |
| `Storage.SizeOfRemove` | runtime/plaid/src/functions/storage.rs:650-679 | Deleting a key lowers the reference usage by exactly the bytes of the entry, by nothing when it was absent. |
| `Storage.PutWritesOneEntry` | runtime/plaid/src/storage/mod.rs:106-111 | A write reaches one key of one namespace; every other entry of the store is what it was. |
| `Storage.RemoveErasesOneEntry` | runtime/plaid/src/storage/mod.rs:118 | A removal makes one key of one namespace absent; every other entry of the store is what it was. |
| `Storage.GetNamespaceByteSize` | runtime/plaid/src/storage/mod.rs:136-149 | The scan loop yields the reference usage whatever order the provider lists the entries in, and whether an empty value comes as `None` or as no bytes. |
| `Quota.Load` | runtime/plaid/src/storage/mod.rs:262-283 | Loading fails exactly when shared databases are configured and one of them is named `*.wasm`; otherwise only `*.wasm` files become rules and the shared databases are kept. |
| `Quota.OneCellPerNamespace` | runtime/plaid/src/storage/mod.rs:267-271 | Different counters always govern different namespaces. |
| `Quota.WouldBeUsedIsNewSize` | runtime/plaid/src/functions/storage.rs:105-113 | With an exact counter, the wrapped sum and difference computed before an insert equal the full scan of the namespace after it. |
| `Quota.Localise` | runtime/plaid/src/functions/storage.rs:70-131 | A step that touches one thread and one counter keeps the invariant of all threads and all counters. |
| `Quota.StepKeepsInv` | runtime/plaid/src/functions/storage.rs:44-170 | Every atomic action of every thread (permission check, lock, measure, limit check and write, erase, read, counter update and unlock, failing provider calls) keeps the accounting invariant: a free counter is exact, a held one is as far off as its holder's position says. |
| `Quota.RunKeepsInv` | runtime/plaid/src/functions/storage.rs:70-131 | The accounting invariant holds after every interleaving of any number of threads. |
| `Quota.FreeCounterIsFullScan` | runtime/plaid/src/functions/storage.rs:70-131 | From exactly seeded counters on, after every interleaving a limited namespace's counter equals the full scan whenever its lock is free. |
| `Quota.CounterArithmeticIsSafe` | runtime/plaid/src/functions/storage.rs:105-113 | At the moment a thread computes, neither the insert's nor the delete's subtraction underflows and the addition does not overflow a u64. |
| `Quota.LimitDecidedOnExactUsage` | runtime/plaid/src/functions/storage.rs:105-131 | An insert is rejected, changing nothing and releasing the lock, if and only if the full scan after it would exceed the limit; otherwise exactly the value is written and the usage is that scan. |
| `Quota.OtherCellClaims` | runtime/plaid/src/functions/storage.rs:70-131 | Work on one namespace changes neither the usage of another nor what an unfinished delete still has to subtract there. |
| `Quota.StepBoundsClaims` | runtime/plaid/src/functions/storage.rs:105-131 | No step lifts a namespace's usage above the larger of its limit and what it was, nor usage plus unsettled deletes above the larger of the limit and what that was. |
| `Quota.UsageStaysBounded` | runtime/plaid/src/functions/storage.rs:105-131 | Over every run a limited namespace's usage never exceeds the larger of its limit and its usage at the start; once within the limit it stays so. |
| `Quota.StepIsolation` | runtime/plaid/src/functions/storage.rs:267-274 | A step that changes a namespace was made by a thread whose rule may write it; no step changes the rule of a thread. |
| `Quota.NamespacesAreIsolated` | runtime/plaid/src/functions/storage.rs:794-801 | Over every run, a namespace none of whose writers takes a step ends exactly as it began. |
| `Quota.OnlyReadersLearn` | runtime/plaid/src/functions/storage.rs:173-450 | In every run, a rule that gets, inserts or deletes may read that namespace, and what it is told is what was stored under the key when the call fetched it. |
| `Quota.RuleNamespacesHaveOneWriter` | runtime/plaid/src/storage/mod.rs:267-271 | A `*.wasm` namespace has its own rule as only writer, any other namespace only the `rw` rules of that shared database. |
| `Quota.WritableIsTheNamedOne` | runtime/plaid/src/functions/storage.rs:267-304 | A writing call is let in exactly when its rule is loaded (own namespace) or among the shared database's `rw` rules, and then works in the namespace, under the limit and on the counter of the name it gave. |
| `Quota.ReadableIsTheNamedOne` | runtime/plaid/src/functions/storage.rs:794-801 | The same for reading calls, which the `r` rules may make too. |
| `Quota.GetOnlyReads` | runtime/plaid/src/functions/storage.rs:307-338 | A get answers what the namespace it names holds under the key, or an error, and changes nothing. |
| `Quota.SizeQueryOnlyReads` | runtime/plaid/src/functions/storage.rs:633-639 | A delete with a zero-length buffer answers what is stored and changes nothing. |
| `Quota.UncountedInsert` | runtime/plaid/src/functions/storage.rs:54-69 | Without a limit an insert writes exactly the value, answers what was there, and touches no counter. |
| `Quota.UncountedDelete` | runtime/plaid/src/functions/storage.rs:641-649 | Without a limit a delete removes exactly the key, answers what was there, and touches no counter. |
| `Quota.CallMovesOn` | runtime/plaid/src/functions/storage.rs:70-170 | A running call waits for nothing but a lock that is held, and every step of its own, whatever the provider does, brings it closer to its end. |
| `Quota.SomeCallMovesOn` | runtime/plaid/src/functions/storage.rs:70-131 | No deadlock: in every reachable state in which some call is running, some thread can take the next step of its call. |
| `CriticalSection.StepElsewhere` | runtime/plaid/src/functions/storage.rs:70-131 | While a thread holds a counter's lock, no step of another thread changes that counter, that namespace or what the thread knows. |
| `CriticalSection.LimitedInsertIsOneBlock` | runtime/plaid/src/functions/storage.rs:70-131 | A limited insert, with any steps of other threads between its own, overwrites exactly what was there when it got the lock and leaves the counter at the full scan, or is rejected exactly when that scan would exceed the limit. |
| `CriticalSection.LimitedDeleteIsOneBlock` | runtime/plaid/src/functions/storage.rs:650-679 | A limited delete, with any steps of other threads between its own, removes and returns exactly what was there when it got the lock and leaves the counter at the full scan. |
| `CriticalSection.FailedCallIsOneBlock` | runtime/plaid/src/functions/storage.rs:90-103 | A read or a delete that the provider fails under the lock ends the call with an error and leaves namespace and counter as they were when it got the lock. |
| `CriticalSection.FailedStoreIsOneBlock` | runtime/plaid/src/functions/storage.rs:105-131 | So does a write that the provider fails, unless the limit rejects it first. |
| `Host.Refusal` | runtime/plaid/src/functions/storage.rs:173-304 | A call reaches the provider exactly when storage is configured, guest memory is there, all arguments can be read and its rule may use the namespace. |
| `Host.StorageHost.ChangedIsConsistent` | runtime/plaid/src/functions/storage.rs:70-131 | After any change within one namespace, recounting that one counter restores exactness of all of them. |
| `Host.StorageHost.TryInsert` | runtime/plaid/src/functions/storage.rs:70-170 | Succeeds exactly when the full scan after the insert is within the limit and the provider does not fail; then returns what was overwritten, and the counter is the new full scan. Otherwise store and counters are as before and the error says which of the two it was. |
| `Host.StorageHost.RemovedIsNewSize` | runtime/plaid/src/functions/storage.rs:650-679 | With an exact counter, the wrapped subtraction after a delete equals the full scan of what is left. |
| `Host.StorageHost.TryDelete` | runtime/plaid/src/functions/storage.rs:636-702 | Removes exactly the key, returns exactly its value, and leaves the counter equal to the full scan, also for an absent key and an unlimited namespace. |
| `Host.StorageHost.Reply` | runtime/plaid/src/functions/memory.rs:80-103 | The code a guest reads: the length for a zero-length buffer, the bytes copied when the buffer is large enough and lies inside memory, otherwise which error; and the exact memory after it, which is untouched unless data is copied. |
| `Host.StorageHost.InsertIsDecided` | runtime/plaid/src/functions/storage.rs:173-304 | An insert is served only to a rule that may write the namespace it names, and answers with what that namespace held; a call that can be read is served exactly when, in addition, the new full scan is within that namespace's own limit and the provider does not fail, and otherwise the error says which. |
| `Host.StorageHost.GetIsDecided` | runtime/plaid/src/functions/storage.rs:341-450 | A get is served only to a rule that may read the namespace it names, and answers from it; a call that can be read is served to each such rule, unless the provider fails. |
| `Host.StorageHost.DeleteIsDecided` | runtime/plaid/src/functions/storage.rs:622-702 | A delete, or the size query, is served only to a rule that may write the namespace it names, and answers from it; a call that can be read is served to each such rule, unless the provider fails. |
| `Host.StorageHost.Insert` | runtime/plaid/src/functions/storage.rs:173-304 | A whole insert call, into the namespace it names: configuration, unreadable arguments, permission, limit, provider and reply; the store changes exactly when the reply is a provider success, even if copying the old value back then fails. |
| `Host.StorageHost.Get` | runtime/plaid/src/functions/storage.rs:341-450 | A whole get call, refused or not, answers from the namespace it names, which the rule may read, and changes only the guest's buffer. |
| `Host.StorageHost.Delete` | runtime/plaid/src/functions/storage.rs:622-702 | A whole delete call, refused or not: with a zero-length buffer a size query that changes nothing, otherwise the removal from the namespace it names. |
| `Guest.CodesTellAgreement` | runtime/plaid-stl/src/plaid/storage.rs:27-53 | Comparing the two return codes decides exactly whether both calls were served about values of the same length, negative casts and error codes included; then the buffer holds the second call's bytes and nothing else. |
| `Guest.Get` | runtime/plaid-stl/src/plaid/storage.rs:132-161 | Whatever other clients do in between: Ok exactly when both calls agree, then with exactly what the second call saw; nothing is changed. |
| `Guest.Insert` | runtime/plaid-stl/src/plaid/storage.rs:13-54 | Whatever other clients do in between: Ok exactly when both calls agree, and then the value was written and what is returned is exactly what it overwrote. The write itself depends on the second call alone: an Err has written exactly when that call overwrote a value of another length than the first one saw. |
| `Guest.InsertErrorHasWritten` | runtime/plaid-stl/src/plaid/storage.rs:27-53 | An insert that returns an error and has written: for every key that was absent and any bytes another client stores under it in between. |
| `Guest.Delete` | runtime/plaid-stl/src/plaid/storage.rs:330-359 | Whatever other clients do in between: non-empty bytes returned are exactly the bytes removed; when the first call saw no bytes nothing is removed, whatever is there by then. |
| `Guest.DeleteAlone` | runtime/plaid-stl/src/plaid/storage.rs:326-359 | Even alone on a healthy store, a delete leaves the key behind if and only if its value is empty. |
| `Guest.InsertThenGet` | runtime/plaid-stl/src/plaid/storage.rs:13-54 | A value inserted within the limit is what a get returns. |
| `Memory.SafelyWriteDataBack` | runtime/plaid/src/functions/memory.rs:80-103 | Succeeds exactly when the buffer is as large as the data or larger and the data fits into memory behind the pointer, and then memory is overwritten at exactly the data's range; otherwise memory is unchanged and the error says which of the two it was. A buffer of size zero asks for the length. |
| `Memory.SafelyGetMemory` | runtime/plaid/src/functions/memory.rs:11-75 | Reads exactly the requested range, if and only if it is inside memory and not longer than all pages the module may have; saturating the limit never decides otherwise. |
| `Framing.LengthRoundTrip` | runtime/plaid/src/functions/message.rs:48-65 | The four length bytes give back every 32-bit length. |
| `Framing.FromLeBytesIsLeValue` | runtime/plaid-stl/src/lib.rs:340-347 | The four length bytes are read least significant first. |
| `Framing.FrameLayout` | runtime/plaid/src/functions/message.rs:48-65 | A frame is the log's length in four bytes, the log, and the source, in this order and with nothing between. |
| `Framing.FrameRoundTrip` | runtime/plaid-stl/src/lib.rs:340-347 | Decoding a frame gives back exactly the log and the source. |
| `Framing.DecodedIsFramed` | runtime/plaid-stl/src/lib.rs:340-347 | Whatever can be decoded is the frame of the log and the source it decodes to. |
| `Framing.FramesAreUnambiguous` | runtime/plaid/src/functions/message.rs:48-65 | Two different pairs of log and source never share a frame. |
| `Framing.FetchDataAndSource` | runtime/plaid/src/functions/message.rs:7-66 | The host puts the complete frame into memory when the buffer is large enough and lies inside memory, or answers the frame's size or which of the two failed, and leaves memory alone. |
| `Framing.ReadFrame` | runtime/plaid-stl/src/lib.rs:340-347 | Delivers exactly the buffers that are frames, each as the log and source it is the frame of, and traps on all others. |
| `Framing.Entrypoint` | runtime/plaid-stl/src/lib.rs:310-364 | Size query, allocation, copy and decoding together deliver exactly the log and source the host holds, if and only if the frame is shorter than 2^31 bytes and fits into memory; nothing outside the buffer changes. Otherwise the rule exits with the code of the first call or with that of a buffer too small, or traps for lack of memory, and memory is unchanged. |
| `Budget.BudgetIsConserved` | runtime/plaid/src/functions/internal.rs:147-182 | Over any sequence of logbacks of one rule, the budget at the start equals what is left plus one and the granted amount for each call that passed; no child is unlimited; refused calls are free. |
| `Budget.UnlimitedAdmitsAll` | runtime/plaid/src/functions/internal.rs:147-150 | An unlimited budget admits every request as it was asked, and stays unlimited over any sequence of them. |
| `Budget.ChargedInFull` | runtime/plaid/src/functions/internal.rs:151-182 | A limited budget admits exactly the limited requests it can pay for together with the child itself; the child gets what was asked, and the rest is what is left. |
| `Budget.Channel.TrySend` | runtime/plaid/src/functions/internal.rs:223-255 | Appends the item exactly when the channel is connected and has room, and otherwise leaves it unchanged. |
| `Budget.Env.DispatchLogback` | runtime/plaid/src/functions/internal.rs:223-255 | A logback goes to exactly one channel: the immediate one only when not cancelled, not delayed and available, else the delayed one with at least one second; an error means that channel was full or disconnected, and nothing was sent. |
| `Budget.Env.LogBackDetailed` | runtime/plaid/src/functions/internal.rs:134-221 | An unlimited budget admits every call, a limited one exactly those it can pay for in full; a call that passes pays even if its arguments are unreadable or the channel is full; a refused call changes nothing at all. A paid call succeeds exactly when the one channel it goes to accepts it, and then that channel gains exactly this message. |
| `Executor.RunRules` | runtime/plaid/src/executor/mod.rs:682-706 | Every rule of a message is charged against a full copy of the budget: what one rule is granted depends only on its own requests and costs at most the message's budget. |
| `Executor.TakenForItsRules` | runtime/plaid/src/executor/mod.rs:660-706 | Taking a message off the queue starts as many rules as listen to its type, exactly one when it names its rule, and none for an unknown type. |
| `Executor.EveryRuleRuns` | runtime/plaid/src/executor/mod.rs:660-706 | The worker is through with the message after exactly that many rules, and each begins with the message's full budget. |
| `Executor.TreesCombine` | runtime/plaid/src/functions/internal.rs:147-182 | G(x) + G(y) <= G(x + y + 1) for G(b) = 1 + f + ... + f^b. |
| `Executor.BranchSplits` | runtime/plaid/src/functions/internal.rs:147-182 | Granting a child part of a budget never increases the work the budget can still cause. |
| `Executor.StepSpendsPotential` | runtime/plaid/src/executor/mod.rs:634-707 | The weighted sum over waiting messages and running rules strictly falls with every message taken and never rises with any step. |
| `Executor.ProcessedIsBounded` | runtime/plaid/src/executor/mod.rs:634-707 | In every interleaving of the workers, whatever the rules ask for, messages processed plus the remaining potential never exceed the potential at the start. |
| `Executor.QueueBoundsWork` | runtime/plaid/src/executor/mod.rs:646-706 | From a finite queue of limited messages at most the sum of 1 + f + ... + f^b over the initial budgets b is ever processed. |
| `Executor.BoundIsReached` | runtime/plaid/src/executor/mod.rs:646-706 | For any fan-out, budget and number of messages there is a run that processes exactly the bound and ends idle. |
| `Executor.BoundIsTight` | runtime/plaid/src/executor/mod.rs:646-706 | The bound cannot be improved: for every queue of messages of one type, whatever their budgets, a run works off all of it and processes exactly the bound. |
| `Shutdown.StepKeepsLocation` | runtime/plaid/src/functions/internal.rs:223-255 | No step of any thread makes a message disappear: an accepted message stays queued, in a worker's hands, finished, delayed, persisted, or recorded as one whose storing failed, including sends that picked their route just before the cancellation. |
| `Shutdown.SendWithRoomIsQueued` | runtime/plaid/src/functions/internal.rs:226-240 | A logback on the immediate route is accepted at the end of the general queue whenever there is room, whatever was cancelled since it picked its route. |
| `Shutdown.SendLaterWithRoomIsDelayed` | runtime/plaid/src/functions/internal.rs:241-255 | A logback on the delayed route is accepted at the end of the delayed channel whenever there is room. |
| `Shutdown.ProducedWithRoomIsQueued` | runtime/plaid/src/executor/mod.rs:823-840 | A webhook's or generator's message is accepted at the end of its queue whenever there is room; only a server that asked for an answer then waits, for that message. |
| `Shutdown.ProducedWithoutRoom` | runtime/plaid/src/executor/mod.rs:823-840 | Without room only a blocking producer waits; the others give the message up and go on. |
| `Shutdown.ReinjectedWithRoomIsQueued` | runtime/plaid/src/data/internal/mod.rs:127-137 | A persisted logback goes to the end of the general queue whenever there is room, and leaves the storage unless deleting it fails. |
| `Shutdown.ListenerTakesDelayed` | runtime/plaid/src/data/internal/mod.rs:61-70 | The listener, and after it the final flush, takes delayed logbacks in order as long as there are any; each is stored, or recorded when storing it fails. |
| `Shutdown.AwaitsItsOwnMessage` | runtime/plaid/src/bin/plaid.rs:626-633 | A server that waits for an answer goes on exactly when its own message has been run to the end; nobody else's step lets it go on before. |
| `Shutdown.QuitsWhenNobodySends` | runtime/plaid/src/executor/mod.rs:648-651 | An idle worker leaves its empty queue exactly when nobody is left who could send: no handle of `main` with a sender, no server, and for the general queue no generator and no running rule. |
| `Shutdown.QueuesAreFifo` | runtime/plaid/src/executor/mod.rs:646-651 | Every step leaves a queue alone, adds one message at its end, or hands its first message to one of its workers. |
| `Shutdown.DisconnectedStays` | runtime/plaid/src/bin/plaid.rs:717-724 | Once no sender of a queue is alive none ever appears again. |
| `Shutdown.NothingArrives` | runtime/plaid/src/executor/mod.rs:646-657 | A queue without a sender only ever loses its first message. |
| `Shutdown.StepKeepsGoneForGood` | runtime/plaid/src/executor/mod.rs:646-657 | A worker only ever leaves a queue that is empty and can never be filled again. |
| `Shutdown.StepKeepsAwaited` | runtime/plaid/src/executor/mod.rs:682-706 | A server waiting for an answer always waits for a message the executor still has or has finished. |
| `Shutdown.StepKeepsInv` | runtime/plaid/src/bin/plaid.rs:682-749 | Every step of producers, workers, the listener and `main` keeps the whole shutdown invariant. |
| `Shutdown.RunKeepsInv` | runtime/plaid/src/bin/plaid.rs:682-749 | The shutdown invariant holds after every interleaving from boot. |
| `Shutdown.StaysInExecutor` | runtime/plaid/src/executor/mod.rs:634-707 | A message that is queued, in a worker's hands or finished is so for the rest of every run. |
| `Shutdown.QueuedIsRun` | runtime/plaid/src/bin/plaid.rs:717-724 | Whatever was in the executor at any moment of any run, a webhook's message, a generator's log or an immediate logback, has been run to the end once the workers are joined. |
| `Shutdown.LateSendIsRun` | runtime/plaid/src/functions/internal.rs:226-240 | A logback that picked its route before the cancellation and sends after it, with room, is run to the end in every interleaving. |
| `Shutdown.DrainedAfterJoin` | runtime/plaid/src/bin/plaid.rs:717-724 | In every interleaving, once the workers are joined all queues are empty, and the only accepted messages not run to the end are logbacks that came in over the delayed channel or were in storage at boot: still delayed, persisted, or recorded as one whose storing failed. |
| `Shutdown.DeferredByChannel` | runtime/plaid/src/functions/internal.rs:241-252 | Nothing but a send on the delayed channel makes a message count as a deferred logback. |
| `Shutdown.NothingLostAtDone` | runtime/plaid/src/bin/plaid.rs:726-729 | When the shutdown is over the delayed channel is empty and the only accepted messages not run to the end are deferred logbacks that are in storage or whose storing failed; if no storing failed nothing is lost. |
| `Shutdown.ShutdownNeverStuck` | runtime/plaid/src/bin/plaid.rs:700-729 | In every reachable state of a shutdown in progress some thread can take a step: no interleaving deadlocks the joins. |
| `Shutdown.StepLowersRank` | runtime/plaid/src/executor/mod.rs:646-706 | After the cancellation every step of every thread lowers one well-founded rank. |
| `Shutdown.EveryScheduleEnds` | runtime/plaid/src/bin/plaid.rs:700-749 | No schedule goes on for ever: whichever thread is picked at each turn, the shutdown is reached to its end. |
| `ExactlyOnce.StepKeepsInOnePlace` | runtime/plaid/src/executor/mod.rs:646-651 | No step of any thread puts a message in two places (queue positions, workers, delayed channel, storage, finished), unless it sends a persisted logback again and fails to delete it. |
| `ExactlyOnce.BegunByDelivery` | runtime/plaid/src/executor/mod.rs:646-651 | A message is begun by the step that hands it to a worker and by no other, and a begun one is not handed out again. |
| `ExactlyOnce.DeliveredOnceIfBegun` | runtime/plaid/src/executor/mod.rs:646-706 | Over every run in which deleting it does not fail, a message is handed to a worker once if the run begins it, and otherwise never. |
| `ExactlyOnce.RunExactlyOnce` | runtime/plaid/src/bin/plaid.rs:717-724 | In every interleaving from boot on, once the workers are joined, every message that was ever queued has been handed to a worker exactly once and run to the end, provided that deleting it from storage did not fail. |
| `ExactlyOnce.FailedDeletionRunsTwice` | runtime/plaid/src/data/internal/mod.rs:127-137 | The proviso is needed for every logback waiting in storage at boot: a run with one failed deletion that runs it twice is given. |
| `DataGenerator.FetchIsTheWindow` | runtime/plaid/src/data/mod.rs:566-608 | The query of a poll answers exactly the logs whose time lies in the window. |
| `DataGenerator.WindowIsCapped` | runtime/plaid/src/data/mod.rs:566-592 | A window ends on the whole second `canon_time` before the clock or as many seconds after its beginning as windows may last, whichever comes first. |
| `DataGenerator.RestartMark` | runtime/plaid/src/data/mod.rs:508-554 | Where each kind of restart begins: at the stored mark, exactly the catch-up time before now when the mark is too old, and now when the state is not taken up. |
| `DataGenerator.ClockSetBack` | runtime/plaid/src/data/mod.rs:530-536 | A clock set back by a second or more makes the stored mark look too old, because the negative age is read as a u64: the restart goes back to the catch-up time before the new clock. Below one second it keeps the mark. |
| `DataGenerator.NextKeepsGapFree` | runtime/plaid/src/data/mod.rs:630-655 | Handling one log of a batch, skipped, sent or refused, opens no gap below `last_seen`. |
| `DataGenerator.RestartKeepsGapFree` | runtime/plaid/src/data/mod.rs:478-554 | A restart that takes up the stored state goes back to a mark below which everything was sent; one whose mark is too old, or that ignores the state, opens no gap from where it begins on. |
| `DataGenerator.RunKeepsGapFree` | runtime/plaid/src/data/mod.rs:558-712 | Every run whose restarts take up the stored state, or begin no later than a given time, has no gap from that time on, with queries, sends and checkpoint writes failing at any point. |
| `DataGenerator.NoLogIsLost` | runtime/plaid/src/data/mod.rs:478-712 | From the first boot, through any failures and any crashes whose restarts take up the stored state, every source log from the start mark up to, but not including, `last_seen` has been sent. |
| `DataGenerator.OnlyOldLogsAreLost` | runtime/plaid/src/data/mod.rs:530-536 | When restarts find their mark too old, or ignore the state, every source log from the latest beginning of their catch-up windows, or of the clocks of those that ignore it, up to `last_seen` has been sent: a too old mark loses only logs older than the catch-up time. |
| `DataGenerator.NothingIsSentTooEarly` | runtime/plaid/src/data/mod.rs:577-590 | In every run, also through crashes, no log is sent before it is `canon_time` old. |
| `DataGenerator.RunKeepsForward` | runtime/plaid/src/data/mod.rs:566-701 | In every run, whatever fails and however it restarts, a process only handles logs from one second before its mark on, and a stored mark is at least as new as what that process had sent by then. |
| `DataGenerator.ResentIsOverlapOrUnmarked` | runtime/plaid/src/data/mod.rs:566-701 | With a cache of any size: what is sent after a restart is not older than one second before the mark, and if the crashed process had sent it already, it is not newer than the stored mark or was sent after that mark was stored. |
| `DataGenerator.RunKeepsRepeatFree` | runtime/plaid/src/data/mod.rs:630-701 | Over every run with any crashes in which nothing is evicted, the cache knows exactly what the last restart restored and what was sent since. |
| `DataGenerator.RepeatsAreUncheckpointed` | runtime/plaid/src/data/mod.rs:478-554 | As long as nothing is evicted: after a restart that reads the stored IDs no log is sent twice, and none that the crashed process had sent by its last complete checkpoint. |
| `Recovery.ResumingLosesNothing` | runtime/plaid/src/data/mod.rs:478-554 | No source and no history loses a log when every restart takes up the stored state. |
| `Recovery.UnsafeRestartLoses` | runtime/plaid/src/data/mod.rs:425-457 | For all settings and every other kind of restart, a source and a history are given that lose a log: a mark that is too old, and every combination of a missing key, a failed read and a mark that does not parse. |
| `Recovery.LostForGood` | runtime/plaid/src/data/mod.rs:566-608 | What a restart jumps over by more than the overlap is not sent by the process it starts. |
| `Recovery.LosesIffNotResumed` | runtime/plaid/src/data/mod.rs:478-554 | For all settings: restarts of a kind can lose a log if and only if they do not take up the stored state. |
| `Recovery.RestartGoesBackIffResumed` | runtime/plaid/src/data/mod.rs:508-538 | With a stored mark, a restart goes back to it or before if and only if it takes up the stored state or the clock is not ahead of the mark. |
| `SeenCache.PutRecent` | runtime/plaid/src/data/github/mod.rs:379-385 | Marking the next log of a stable source turns the cache of the most recent IDs into that of the logs including it. |
| `SeenCache.NextKeepsStretch` | runtime/plaid/src/data/mod.rs:630-655 | What was sent stays one contiguous stretch of the source and the evicting cache stays its end, whichever log is met and whether or not it is delivered. |
| `SeenCache.SentIsAStretchOfTheSource` | runtime/plaid/src/data/mod.rs:566-656 | With a cache as large as the busiest second of the source, a crash-free process sends the source from one second before boot on, contiguously, in order and each log once, whatever fails on the way. |
| `SeenCache.RepeatsIffCacheTooSmall` | runtime/plaid/src/data/github/mod.rs:375-385 | Some crash-free run sends a log twice if and only if some second of the source holds more logs than the cache holds IDs. |
| `RestartCache.ReloadTurns` | runtime/plaid/src/data/mod.rs:539-541 | Marking the stored IDs in the order they were listed leaves the cache with all of them in the opposite order, the newest to be evicted next. |
| `RestartCache.NextContinues` | runtime/plaid/src/data/mod.rs:630-655 | After a restart too, what was sent stays one contiguous stretch, and the cache holds the new IDs and the oldest of the reloaded ones. |
| `RestartCache.ReachCut` | runtime/plaid/src/data/mod.rs:566-701 | A process can stop right after checkpointing everything it sent at every place where a window ends and that is reached with no longer gap than a window; the run is given. |
| `RestartCache.OvertakenRepeats` | runtime/plaid/src/data/mod.rs:478-712 | Whenever some log is evicted by those just after a possible stop and lies within a second of them, a clean stop, a restart and a run are given that send a log again. |
| `RestartCache.FullCacheIsCrossedIff` | runtime/plaid/src/data/github/mod.rs:375-405 | After a stop with a full cache, whatever its size, a log is overtaken if and only if the logs on both sides of the stop are within one second. |
| `RestartCache.NarrowIsNotEnough` | runtime/plaid/src/data/github/mod.rs:375-405 | A source, with a cache as large as its busiest second, for which one clean restart sends a log again. |
| `CleanRestarts.EvictionLeavesStopBehind` | runtime/plaid/src/data/mod.rs:626-656 | Unless a log is overtaken, an eviction after a stop means that nothing from before the stop is within a second of what is sent, so that the order of the eviction does not matter. |
| `CleanRestarts.SendRemembers` | runtime/plaid/src/data/mod.rs:630-655 | Sending the next log keeps every log cached that the next window could bring again, through any number of earlier restarts. |
| `CleanRestarts.RunStaysAlive` | runtime/plaid/src/data/mod.rs:478-712 | What was sent, what the cache remembers and where a checkpoint can be are kept by every run with any number of clean stops and restarts. |
| `CleanRestarts.LifeSendsOnce` | runtime/plaid/src/data/mod.rs:478-712 | With any number of clean stops and restarts the source is sent contiguously, in order and each log once, unless some second is too busy for the cache or some log is overtaken across a stop. |
| `CleanRestarts.RepeatsIffOvertaken` | runtime/plaid/src/data/mod.rs:478-712 | Some life with any number of clean stops and restarts sends a log twice if and only if some second of the source is too busy for the cache or some log is overtaken across a stop. |
| `GeneratorLoop.Generator.UpdateFromStorage` | runtime/plaid/src/data/mod.rs:478-554 | Recovery takes exactly the step system's restart, reloading the IDs one by one, also when a read fails or the mark does not parse. |
| `GeneratorLoop.Generator.SendBatch` | runtime/plaid/src/data/mod.rs:626-656 | The sending loop does to the generator exactly what draining the batch does in the step system, whichever send is the first to be refused. |
| `GeneratorLoop.Generator.StoreProgress` | runtime/plaid/src/data/mod.rs:668-701 | The two writes are the two saving steps, one after the other, each with its own outcome. |
| `GeneratorLoop.Generator.GetAndProcessLogs` | runtime/plaid/src/data/mod.rs:558-712 | The polling loop ends in the state, and with the verdict, of the specified activation, for every clock, source, executor and storage behaviour. |
| `GeneratorLoop.DrainIsRun` | runtime/plaid/src/data/mod.rs:626-656 | Draining a batch is a crash-free run of single steps that ends with the batch used up or the send refused. |
| `GeneratorLoop.DrainHandles` | runtime/plaid/src/data/mod.rs:630-656 | Draining a batch handles each of its logs, unless the executor refuses one: it has been sent or its ID is known. |
| `GeneratorLoop.RoundVerdict` | runtime/plaid/src/data/mod.rs:594-666 | A round ends the activation with an error after an unanswered query or a refused send, with success when it sent nothing, and otherwise goes on polling; without an error every log of its window has been sent or is known. |
| `GeneratorLoop.ActivationVerdict` | runtime/plaid/src/data/mod.rs:558-712 | Success means that the last round found nothing new; an error, that its query was not answered or a send was refused; every round before it sent something. |
| `GeneratorLoop.ActivationIsRun` | runtime/plaid/src/data/mod.rs:558-712 | Every activation, whichever way it ends, is a crash-free run of the step system from polling to polling, so that the theorems about runs hold of the loop. |
| `GeneratorLoop.ActivationKeepsGapFree` | runtime/plaid/src/data/mod.rs:558-712 | No activation opens a gap below `last_seen`, whatever fails in it. |
| `Migration.Provider.ApplyMigration` | runtime/plaid/src/storage/mod.rs:154-174 | A migration succeeds exactly when the provider survives two calls per entry with a value; after a failure the namespace is exactly what the rows before it give, less the old entry when it was the insert that failed. No other namespace changes. |
| `Migration.UntouchedStays` | runtime/plaid/src/storage/mod.rs:154-174 | For any listing: an entry that is neither a migrated key nor a new key stays as it is, and a row without a value changes nothing. |
| `Migration.MidwayHolds` | runtime/plaid/src/storage/mod.rs:154-174 | Midway the namespace holds the images of the rows done, the old entries of the others, and nothing else. |
| `Migration.MigrationIsImage` | runtime/plaid/src/storage/mod.rs:154-174 | With distinct new keys none of which is another entry's old key, the result is exactly the image of the old entries, in whatever order they are visited. |
| `Migration.FailedInsertLosesOneEntry` | runtime/plaid/src/storage/mod.rs:154-174 | When an insert fails exactly that entry is lost, under its old key and its new one. |
| `Migration.ClobberedInSomeOrder` | runtime/plaid/src/storage/mod.rs:154-174 | When an entry moves onto another's old key, an order is given in which the moved entry is deleted again. |
| `Migration.OrderIrrelevantIffNoClobber` | runtime/plaid/src/storage/mod.rs:154-174 | A migration with distinct new keys yields the image in every order if and only if no new key is another entry's old key. |
| `Secrets.ReadAndInterpolate` | runtime/plaid/src/config.rs:371-377 | The loop applies one textual replacement per secret in the order listed. |
| `Secrets.TextIsPassedOver` | runtime/plaid/src/config.rs:371-377 | Text that contains no placeholder and does not end in the beginning of one is passed over, whatever follows it. |
| `Secrets.HarmlessIsClean` | runtime/plaid/src/config.rs:371-377 | Text without `{p` and without a final `{` starts no placeholder, whatever the secrets are. |
| `Secrets.OtherHoleIsPassedOver` | runtime/plaid/src/config.rs:371-377 | Replacing one placeholder leaves every other placeholder intact, its inner braces included. |
| `Secrets.ReplaceFillsOne` | runtime/plaid/src/config.rs:371-377 | One textual replacement fills exactly the holes of one secret in the author's view of the configuration. |
| `Secrets.SequentialIsSimultaneous` | runtime/plaid/src/config.rs:371-377 | Replacing one secret after the other, in any order, gives the text in which all holes are filled at once, when neither the text nor a value starts the placeholder of another secret. |
| `Secrets.OrderDoesNotMatter` | runtime/plaid/src/config.rs:371-377 | Any two orders of the same secrets then give the same configuration. |
| `Secrets.UncleanValueShows` | runtime/plaid/src/config.rs:371-377 | For every value that contains another secret's placeholder, or ends in the beginning of one, a configuration and an order are given in which it is taken for a placeholder. |
| `Secrets.SimultaneousIffCleanValues` | runtime/plaid/src/config.rs:371-377 | Replacing one after the other is filling all at once, for every configuration and every order, if and only if no value starts the placeholder of another secret. |
| `Secrets.PlaceholderInValueShowsOrder` | runtime/plaid/src/config.rs:371-377 | A secret whose value is another secret's placeholder makes the two orders give different texts. |
| `Pagination.UsedPages` | runtime/plaid-stl/src/github/copilot.rs:91-104 | The number of pages a list occupies: enough for all of it, and one fewer is not. |
| `Pagination.FullPages` | runtime/plaid-stl/src/github/pull_request.rs:547-587 | The number of pages a list fills completely, and no more. |
| `Pagination.StopsAtPagesNeeded` | runtime/plaid-stl/src/github/search.rs:55-128 | Each of the four stopping rules first holds at exactly the computed page, and then everything has been collected. |
| `Pagination.CollectPages` | runtime/plaid-stl/src/github/secrets.rs:122-170 | Every rule terminates and returns exactly the whole list in order, if and only if no needed page fails and the page counter can hold their number; otherwise the error tells the two apart. |
| `Pagination.RequestsSaved` | runtime/plaid-stl/src/github/copilot.rs:91-104 | The short-page rule saves the empty-page rule's last request unless the list fills its pages; testing for an empty page as well changes nothing; the total-count rule saves it for every list but the empty one. |
| `GetCache.RunKeepsInv` | runtime/plaid/src/bin/plaid.rs:548-635 | In every interleaving of requests the cache holds exactly the latest write of each webhook, and every past lookup was answered rightly. |
| `GetCache.ServedIsLatestValidWrite` | runtime/plaid/src/bin/plaid.rs:548-558 | In every interleaving a request is answered without running the rule if and only if the webhook's latest write was still valid when the request arrived, then with that write's body, which some rule run gave for this webhook. |
| `GetCache.StampsAscendUnlessTwoWait` | runtime/plaid/src/bin/plaid.rs:626-635 | In every run in which no two answers for a webhook wait for the lock at once, its stamps never go back. |
| `GetCache.OlderAnswerMayReplaceNewer` | runtime/plaid/src/bin/plaid.rs:626-635 | Because the stamp is taken before the lock, the latest write may carry an older stamp than the one it replaces; the run is given. |
| `BodyReader.PrefixFits` | runtime/plaid/src/bin/plaid.rs:144-199 | A body that is not within the limit up to some buffer is not within it as a whole, so that the early exit is right. |
| `BodyReader.ReadBodyWithLimit` | runtime/plaid/src/bin/plaid.rs:144-199 | Ok exactly when no buffer is an error and the total is within the limit, and then the concatenation of all buffers in order; otherwise the error names the first item that ended the reading and why. |
| `BodyReader.Join` | runtime/plaid/src/bin/plaid.rs:181-198 | The copied bytes are the buffers' contents in order, however each buffer cuts itself into pieces. |
| `Signing.AtMostOneSignerPerFile` | runtime/plaid/src/loader/signing.rs:36-41 | Fewer files than the threshold can never hold enough signers, so that the shortcut is right. |
| `Signing.CheckModuleSignatures` | runtime/plaid/src/loader/signing.rs:16-85 | Accepted exactly when the distinct authorized fingerprints with a valid signature number at least the threshold, and at least one even for a threshold of zero; independent of the order of the files, repeated signatures, the shortcut and the early exit. |

## Left out

Assumptions of the model:

- Provider calls: each is atomic, and one that fails leaves the store unchanged. A poisoned lock is not modelled.
- Host namespaces of data generators and delayed logbacks live in the same store; their names are taken to differ from every rule's and shared database's name.
- Counters of unlimited namespaces are not maintained by the code either; nothing is stated about them. u64 arithmetic wraps, as in a release build.
- Clocks, randomness, the guest's allocator, provider faults and network replies are parameters or events.
- Shutdown: queues hold at least one message, every queue has a worker, runs of a module end, a worker does not stop because the logging system failed, and a generator or server makes finitely many sends before it looks at the cancellation again. `main` drops its handles in any order, which includes the order in the source. Putting a persisted logback back into the queue and deleting it is one step, with the deletion failing or not, and so is storing a delayed one; every new message has an ID of its own; a logback whose storing fails is gone, as in the source, and recorded.
- Data generators: the source is stable, ascending and gives each log its own ID; times are not negative. A window whose end cannot be expressed as a time counts as a failed fetch. Only safety is stated: an empty window does not advance `last_seen`.
- JSON, TOML, UTF-8, the operating system's file listing, hashing and signature verification are opaque.

Statements that are weaker than one might expect:

- DataGenerator.RepeatsAreUncheckpointed: for runs in which nothing is evicted. For caches of any size `DataGenerator.ResentIsOverlapOrUnmarked` bounds what is sent again after any crash, and `CleanRestarts.RepeatsIffOvertaken` says when nothing is after a clean stop.
- CleanRestarts.RepeatsIffOvertaken: for stops right after a checkpoint and a clock that has not gone back; after a crash with sends that were not checkpointed those sends are repeated by design.
- DataGenerator.RunKeepsRepeatFree: for runs in which nothing is evicted, as `DataGenerator.RepeatsAreUncheckpointed`.
- Recovery.LosesIffNotResumed: for windows of at least two seconds and settings not at the end of a u64.
- SeenCache.RepeatsIffCacheTooSmall: for windows of at least three seconds and times whose sum with the window fits a u64, as `CleanRestarts.RepeatsIffOvertaken`.
- Quota.CounterArithmeticIsSafe: for limits and usages with room for one more key and value below 2^64; keys and values are shorter than 2^32 bytes because their lengths come as u32.
- Quota.UsageStaysBounded: under the same headroom.
- Secrets.SequentialIsSimultaneous: for names without braces and literal text that starts no placeholder of its own; the condition on the values is exact. The panic on a secret that is not a string is not modelled.
- Migration.MigrationIsImage: for listings in which every key comes with its value; a key listed without one is skipped by the code and by `Migration.MigrateRow`.
- Pagination.CollectPages: the four loops are one method with the stopping rule as a parameter, over a server list that does not change meanwhile, shorter than 2^32. A page counter about to overflow is reported as an error instead of wrapping or panicking.
- BodyReader.ReadBodyWithLimit: byte counts are unbounded integers; a sum beyond the address range is not modelled.
- Framing.Entrypoint: the entry point with raw bytes; the string variants add UTF-8 checks.

Not modelled:

- Persistent responses, static and Facebook GET modes, webhook headers and the POST route.
- `storage_list_keys` and the other read-only variants of storage calls; the shared variants of the guest functions differ from the modelled ones only in the host function they call.
- `filter_search_results`, the query builders and the clients of external services.
- Compilation, metering and linking of WASM modules, the table of host functions, error-code conversions.
- Logging, metrics, performance reports, probes and command-line tools.
- The concrete storage back ends and the delayed-message heap; a delayed logback is a queue entry that becomes a stored one.
