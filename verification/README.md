# Snapshot: models and proofs

A Dafny model of the parts of Snapshot whose correctness lies in the order of many small steps, and proofs of what those parts promise.

**PageBroker transactions.** `Lifecycle` and `Actions` say what a thread does to one transaction while it holds the transaction's mutex, cut at every point where another thread may act: engine calls, the byte reservation shared by all restores, the GPU run without the mutex, the wait of Abort. `Registry` puts any number of transactions, the registry, the terminal queue, the admission accounts and the disk into one state and lets any thread act at any time, however stale its handle; engines, clocks and the file system are arguments of the steps. `ActionLaws` shows what every single action keeps, `RunInvariants` lifts that to every state of every run, `RunTheorems`, `GpuShield` and `BrokerSweeps` draw the conclusions. `RequestOutcomes` and `StagingOutcomes` say what every request answers and leaves behind, by the fields of the transaction it meets and without naming the model's own branches; `RequestRuns` carries that to whole runs. `Transactions`, `Handlers` and `Brokers` are the same protocol as objects updated in place: every method of the broker is a step or a run of the model, so that what holds of every run holds of the object. `DirectNames` says when a directory name identifies its transaction.

**Cancellation scopes** (`Cancellations`), the **NIXL slot engine** (`IoEngine`), the **restore Pod** (`ContainerMappings`, `RestorePods`, `RestorePodLaws`, `RestorePodMeaning`, `RestorePodBuilder`, `RestoreMarker`), the **store identity** (`StoreIdentity`) and the **benchmark history** (`BenchmarkHistory`, `HistoryMeaning`, `HistoryStore`) are modelled in the same way: functions and lemmas where the original computes, classes and loops where it updates. `Texts`, `Splitting` and `Sorting` hold what they share.

`dafny verify dfyconfig.toml` checks the whole project.

Two results are conditions rather than plain laws. The name of a direct checkpoint's directory identifies path and transaction ID exactly for IDs that do not end in the name's marker followed by another ID that requests may carry; `DirectNames` shows two requests that share a directory. A completion marker is read back exactly if the PID is positive (`RestoreMarker.FormatRoundTrip`).

## Model

| member | source | states |
|---|---|---|
| Transactions.Transaction.constructor | agent/pagebroker/transaction.hpp:98-118 | a new transaction is New, without descriptor, holdings, deadline or GPU operation |
| Transactions.Transaction.ReleaseReservation | agent/pagebroker/transaction.cpp:139-149 | gives bytes and slot back to the shared accounts once and only once |
| Transactions.Transaction.ReleaseAbortedDestination | agent/pagebroker/transaction.cpp:151-160 | an aborted, clean transaction gives its destination back and forgets it, so that its destructor cannot free a later owner's |
| Transactions.Transaction.SetState | agent/pagebroker/transaction.cpp:23-31 | moves the state, closes the GPU targets at the end of life and releases an aborted destination |
| Transactions.Transaction.TryClearDescriptor | agent/pagebroker/transaction.cpp:45-53 | clears the descriptor exactly if no cleanup is pending |
| Transactions.Transaction.RetainTerminal | agent/pagebroker/transaction.cpp:71-78 | marks the transaction exactly if it is finished, clean and not marked yet |
| Transactions.Transaction.PrepareTransfer | agent/pagebroker/transaction.cpp:97-116 | refuses on either limit or an owned destination, in that order, and takes nothing then; the publication is recorded even if admission is refused |
| Transactions.Transaction.Reserve | agent/pagebroker/transaction.cpp:124-137 | grows the budget to the given bytes if they fit the limit, never shrinks it, and does nothing without admission |
| Transactions.Transaction.RemoveStaging | agent/pagebroker/transaction.cpp:168-185 | does nothing for another path; otherwise directory, retry data, bytes, slot, aborted destination and descriptor go together, or nothing goes if removal fails |
| Transactions.Transaction.CleanupTransfer | agent/pagebroker/transaction.cpp:199-205 | retries removal exactly if something is pending |
| Transactions.Transaction.ExpireTransfer | agent/pagebroker/transaction.cpp:207-217 | an expired transaction is marked, cancelled and Aborting; any other is untouched |
| Handlers.BeginAbort | agent/pagebroker/broker.cpp:120-126 | Aborting and cancelled before GPU work is waited for |
| Handlers.DrainedAbort | agent/pagebroker/broker.cpp:127-144 | after GPU work has drained: artifact reset, staging removed, then Aborted; a failed removal leaves the transaction Aborting with all it holds |
| Handlers.FinishAbort | agent/pagebroker/broker.cpp:840-846 | the reply tells a completed abort from a failed cleanup |
| Handlers.Abort | agent/pagebroker/broker.cpp:818-847 | replies and new state of Abort in every state, including the wait while GPU work runs; RequestOutcomes.AbortOutcome tells both by the fields |
| Handlers.AbortResumed | agent/pagebroker/broker.cpp:132-144 | an Abort that waited finishes like one that did not have to |
| Handlers.AbortTimedOut | agent/pagebroker/broker.cpp:132-135 | an Abort that waited too long leaves everything as it is and says so |
| Handlers.Reap | agent/pagebroker/broker.cpp:321-343 | one visit of the reaper: retry of cleanup and retention for a finished transaction, expiry for an expired one, and whether the registry entry goes |
| Handlers.CleanupRestore | agent/pagebroker/broker.cpp:775-787 | a restore commits even if its staging cannot be removed yet |
| Handlers.Commit | agent/pagebroker/broker.cpp:732-773 | reply and new state of Commit in every state, up to the engine calls; RequestOutcomes.CommitOutcome tells both by the fields |
| Handlers.CommitInspected | agent/pagebroker/broker.cpp:797-803 | the inventory is admitted into the budget or the commit fails and stays Staged |
| Handlers.CommitPublished | agent/pagebroker/broker.cpp:804-815 | success commits once and starts cleanup; failure leaves the transaction Staged with its retry data |
| Handlers.Gpu | agent/pagebroker/broker.cpp:858-908 | which request starts the engine, which replays a result and which is refused; RequestOutcomes.GpuRequestOutcome tells it by the fields |
| Handlers.GpuFinished | agent/pagebroker/broker.cpp:935-946 | a target conflict leaves the operation ready for a retry, anything else is its final result |
| Handlers.RejectBeforeOwnership | agent/pagebroker/broker.cpp:429-442 | Aborted and cleaned up; the registry entry goes exactly if cleanup succeeded |
| Handlers.AbortStaging | agent/pagebroker/broker.cpp:444-456 | Aborted, with whatever could not be removed still on record |
| Handlers.RestoreFailed | agent/pagebroker/broker.cpp:622-636 | which failures free the ID for a retry and which abort |
| Handlers.RestoreAdmitted | agent/pagebroker/broker.cpp:580-595 | a restore starts Preparing with a slot, or fails without one, also where the look for an existing directory fails |
| Handlers.RestoreScanned | agent/pagebroker/broker.cpp:595-602 | the inventory is admitted into the budget before anything is created |
| Handlers.RestoreSpaced | agent/pagebroker/broker.cpp:603-605 | a restore that does not fit the reported space is rejected before it owns anything |
| Handlers.RestoreCreated | agent/pagebroker/broker.cpp:606-612 | the directory is recorded exactly if this restore created it |
| Handlers.RestoreCopied | agent/pagebroker/broker.cpp:613-621 | Staged with its directory, unless the copy failed or came too late |
| Handlers.CheckpointFailed | agent/pagebroker/broker.cpp:711-722 | which failures free the ID for a retry and which abort |
| Handlers.CheckpointAdmitted | agent/pagebroker/broker.cpp:672-694 | a checkpoint starts Preparing with slot, bytes and destination, or fails without them; a repeated request for a staged direct checkpoint is answered and changes nothing |
| Handlers.CheckpointOpened | agent/pagebroker/broker.cpp:692-710 | the output directory is recorded exactly if this checkpoint created it, then Staged |
| Brokers.Broker.constructor | agent/pagebroker/broker.cpp:273-290 | an empty broker is the start of every run |
| Brokers.Broker.CreateOrGetTransaction | agent/pagebroker/broker.cpp:347-355 | one transaction per registered ID, none once the broker is stopping; a step of the run model |
| Brokers.Broker.FindTransaction | agent/pagebroker/broker.cpp:357-363 | exactly the registered transaction |
| Brokers.Broker.EraseTransaction | agent/pagebroker/broker.cpp:365-372 | removes the entry only if it still names this very transaction |
| Brokers.Broker.RetainTerminalTransactionLocked | agent/pagebroker/broker.cpp:385-392 | queues a transaction exactly if it is finished, clean and not queued before, stamped with the current time |
| Brokers.Broker.RetainTerminalTransaction | agent/pagebroker/broker.cpp:374-383 | a step of the run model; a transaction whose mutex is taken is passed over |
| Brokers.Broker.ReserveStaging | agent/pagebroker/broker.cpp:412-420 | reserves exactly if the file system answers and these bytes and all reserved before fit what it reports |
| Brokers.Broker.TakeOverdue | agent/pagebroker/broker.cpp:397-406 | takes from the front as long as the first entry is stale or the queue too long, and nothing else |
| Brokers.Broker.ReapTerminalTransactions | agent/pagebroker/broker.cpp:394-410 | a run of one take and one erasure for each entry taken, which spares an entry that is no longer its own |
| Brokers.Broker.CancelWork | agent/pagebroker/broker.cpp:825-825 | a step of the run model without any mutex |
| Brokers.Broker.Commit | agent/pagebroker/broker.cpp:732-773 | a step of the run model, so the invariant and every theorem about runs stay true of the object; each answer is given exactly under its own condition on state, deadline, GPU operation, descriptor and output; it commits a restore, or goes on to publish a checkpoint, exactly if that is staged, in time and done with GPU work; a refused Commit changes nothing |
| Brokers.Broker.CommitInspected | agent/pagebroker/broker.cpp:797-803 | likewise for the inspection, with its reply |
| Brokers.Broker.CommitPublished | agent/pagebroker/broker.cpp:804-815 | likewise for the publication, with its reply |
| Brokers.Broker.Abort | agent/pagebroker/broker.cpp:818-847 | likewise for Abort: a live transaction in time ends Aborted with bytes, slot, directory and destination returned, stays Aborting with its holdings if its directory is stuck, or waits while the GPU is busy; each answer exactly under its own condition; a committed or expired one is unchanged |
| Brokers.Broker.AbortResumed | agent/pagebroker/broker.cpp:132-144 | likewise for the second half of an Abort that waited, with its reply |
| Brokers.Broker.AbortTimedOut | agent/pagebroker/broker.cpp:132-135 | likewise for an Abort that waited too long, with its reply |
| Brokers.Broker.Gpu | agent/pagebroker/broker.cpp:858-908 | likewise for a GPU request: a result is replayed exactly to the recorded request, a run starts exactly for the first request of the right direction or for one repeated after a target conflict, everything else changes nothing |
| Brokers.Broker.GpuFinished | agent/pagebroker/broker.cpp:916-947 | likewise for the completion of a GPU run, with its reply |
| Brokers.Broker.RestoreAdmit | agent/pagebroker/broker.cpp:579-595 | likewise for the admission of a restore; a rejected one leaves the registry |
| Brokers.Broker.RestoreScanned | agent/pagebroker/broker.cpp:595-602 | likewise for its inventory |
| Brokers.Broker.RestoreSpace | agent/pagebroker/broker.cpp:603-605 | likewise for its space |
| Brokers.Broker.RestoreMkdir | agent/pagebroker/broker.cpp:606-612 | likewise for its directory; its bytes come back on failure |
| Brokers.Broker.RestoreCopied | agent/pagebroker/broker.cpp:613-636 | likewise for its copy; its bytes come back once, whatever the outcome |
| Brokers.Broker.CheckpointAdmit | agent/pagebroker/broker.cpp:671-691 | likewise for the admission of a checkpoint, with its reply |
| Brokers.Broker.CheckpointOpened | agent/pagebroker/broker.cpp:692-722 | likewise for its output directory |
| Brokers.Broker.ReapTransaction | agent/pagebroker/broker.cpp:322-343 | likewise for a visit of the reaper, which skips a transaction whose mutex is taken |
| Brokers.Broker.ReapExpiredTransactions | agent/pagebroker/broker.cpp:318-343 | a sweep over a snapshot is the run of its visits |
| Brokers.Broker.Shutdown | agent/pagebroker/broker.cpp:303-310 | a step of the run model: the stop flag is up and exactly the registered transactions are cancelled |
| Brokers.RunsAreLawful | agent/pagebroker/broker.cpp:479-530 | from an object in a reachable state any run leads to a reachable state, and from one in which the invariant holds to one in which it holds |
| Brokers.SweepIsARun | agent/pagebroker/broker.cpp:318-343 | a sweep is the run of its visits |
| ActionLaws.ActLaw | agent/pagebroker/broker.cpp:479-947 | every action at every program point keeps the transaction's invariant, leaves the bytes, slots, destinations and directories of all others alone, moves its life only forwards, accounts for the shared bytes it changes, lets only a finished and clean transaction leave the registry, and tells the truth in its reply |
| ActionLaws.AdmitLaw | agent/pagebroker/transaction.cpp:97-116 | admission, granted or refused, leaves every other holder's bytes, slots, destinations and directories as they are |
| ActionLaws.ReserveLaw | agent/pagebroker/transaction.cpp:124-137 | growing a budget keeps the limits and everybody else's share |
| ActionLaws.RemoveStagingLaw | agent/pagebroker/transaction.cpp:168-185 | removal takes away nothing that another transaction accounts for |
| ActionLaws.CleanupLaw | agent/pagebroker/transaction.cpp:199-205 | retrying cleanup of a finished transaction keeps its invariant and its payload |
| RunInvariants.SettledInv | agent/pagebroker/broker.cpp:479-530 | writing an action back keeps the invariant of the whole broker |
| RunInvariants.CreatedInv | agent/pagebroker/broker.cpp:347-355 | so does a new transaction |
| RunInvariants.StoppedInv | agent/pagebroker/broker.cpp:303-310 | so does shutdown |
| RunInvariants.ErasedInv | agent/pagebroker/broker.cpp:408-409 | so does a stale entry of the terminal queue |
| RunInvariants.DroppedInv | agent/pagebroker/transaction.cpp:88-95 | so does the late destruction of a transaction, which frees no other owner's destination |
| RunInvariants.RunInv | agent/pagebroker/broker.cpp:479-530 | the invariant holds in every state of every run, whatever the interleaving |
| RunTheorems.AdmissionIsConserved | agent/pagebroker/transaction.cpp:97-149 | in every reachable state bytes and slots are exactly those of admitted, unreleased transactions, within their limits and never negative; the bytes reserved for copying are exactly those of restores between reservation and release |
| RunTheorems.ReserveNeverFollowsRelease | agent/pagebroker/transaction.cpp:124-137 | wherever a budget may still grow it has not been released |
| RunTheorems.DestinationsAreExclusive | agent/pagebroker/transaction.cpp:104-115 | the destination set is exactly what live transactions own, and no two own the same |
| RunTheorems.AbortedDestination | agent/pagebroker/transaction.cpp:151-160 | aborted and clean means that the destination is given up |
| RunTheorems.DestinationIsKept | agent/pagebroker/transaction.cpp:151-160 | along any run a destination stays with its owner exactly until that is aborted and clean |
| RunTheorems.OneLiveTransactionPerId | agent/pagebroker/broker.cpp:347-372 | at most one transaction per ID is unfinished or unclean, over all holders, and the registry finds it |
| RunTheorems.NoStagingIsOrphaned | agent/pagebroker/broker.cpp:429-456 | every directory made and neither removed nor published is on the record of exactly one transaction, which is registered |
| RunTheorems.NamedStagingHasOneOwner | agent/pagebroker/transfer/filesystem/filesystem_storage.cpp:302-304 | the same for the directories of direct checkpoints by their names, for IDs that hide no marker |
| RunTheorems.LifeIsOneWay | agent/pagebroker/transaction.cpp:23-31 | along any run: Committed and Aborted are final, Aborting only ends Aborted, payload, GPU request and final GPU result never change, the deadline never moves, a cancelled transaction is never staged |
| RunTheorems.AnswersNeverClash | agent/pagebroker/broker.cpp:732-847 | no transaction answers Commit and Abort with success, all Commits answer the same payload, the engine publishes once, a GPU run concludes once, all GPU answers are to one request with one result |
| RunTheorems.GpuAnswersReplayOneRun | agent/pagebroker/broker.cpp:880-908 | every GPU answer is that of one concluded run at or before it: to the same request, with the same result |
| RunTheorems.CommitIsRepeatable | agent/pagebroker/broker.cpp:752-756 | a committed transaction answers every later Commit with its payload |
| RunTheorems.CommittedGpuSucceeded | agent/pagebroker/broker.cpp:757-762 | a transaction with a GPU operation is committed only if that succeeded |
| RunTheorems.CommitBranchesUnreachable | agent/pagebroker/broker.cpp:746-771 | Commit never meets a preparing transaction nor a staged one without descriptor |
| RunTheorems.GpuRunsOnAnArtifact | agent/pagebroker/broker.cpp:916-933 | the GPU engine only runs on an artifact that is held, for a registered transaction |
| GpuShield.ActsAroundGpu | agent/pagebroker/broker.cpp:120-144 | no action of anyone else touches what a running GPU operation uses |
| GpuShield.RunningGpuIsShielded | agent/pagebroker/broker.cpp:242-269 | along any run, until its own completion, a transaction with running GPU work keeps staging, reservation, artifact and target descriptors, stays registered and is neither Committed nor Aborted |
| BrokerSweeps.RetentionIsExact | agent/pagebroker/broker.cpp:394-410 | taking from the front alone leaves no stale entry and at most 1024, takes nothing that is neither stale nor surplus, and what is taken is due for erasure |
| BrokerSweeps.QueueIsOrderly | agent/pagebroker/broker.cpp:385-392 | the queue is sorted by completion and lists only finished, clean transactions, none of them twice |
| BrokerSweeps.QueuedAtMostOnce | agent/pagebroker/broker.cpp:385-392 | along any run a transaction that has been through the queue never enters it again |
| BrokerSweeps.NobodyElseEvicts | agent/pagebroker/broker.cpp:365-372 | a transaction leaves the registry only finished and clean, and only by its own holder or its own queue entry: a stale snapshot or a stale entry never evicts a later transaction with the same ID |
| BrokerSweeps.NothingIsStagedAfterShutdown | agent/pagebroker/broker.cpp:303-310 | after shutdown nothing becomes Staged any more |
| BrokerSweeps.RestoresFitReportedSpace | agent/pagebroker/broker.cpp:412-427 | a restore goes on exactly if the file system answers and its bytes and those of all others under way fit what it reports |
| BrokerSweeps.SweepAbortsTheExpired | agent/pagebroker/broker.cpp:318-345 | a sweep removes every transaction of its snapshot that is past its deadline, idle and can be cleaned, with all it held; the others past it stay registered, Aborting and cancelled, with their holdings; whoever has not expired or is not in the snapshot is unchanged |
| BrokerSweeps.ReapRetainsTheFinished | agent/pagebroker/broker.cpp:325-332 | a visit to a finished transaction cleans it up and queues it, once; a stuck directory is left for the next visit |
| BrokerSweeps.ErasureIsExact | agent/pagebroker/broker.cpp:394-410 | the turn of a taken entry takes its own transaction, and no other, out of the registry |
| BrokerSweeps.CreationIsExact | agent/pagebroker/broker.cpp:347-355 | a request finds the registered transaction or, unless the broker is stopping, creates one that holds nothing and disturbs nobody |
| BrokerSweeps.DestructionIsExact | agent/pagebroker/transaction.cpp:88-95 | what a transaction that nobody holds takes with it is at most the destination it published |
| RequestOutcomes.CommitOutcome | agent/pagebroker/broker.cpp:732-773 | expired is answered exactly to an unfinished transaction past its deadline; committed at once exactly a restore, and sent to publication exactly a checkpoint with its output, that is staged, in time and done with GPU work; every other refusal exactly under its own condition; the staging of a committed restore goes back unless it is stuck |
| RequestOutcomes.InspectOutcome | agent/pagebroker/broker.cpp:797-803 | publication begins exactly if the inventory could be read and is wholly in the budget; otherwise the transaction stays staged as it was |
| RequestOutcomes.PublishedOutcome | agent/pagebroker/broker.cpp:804-815 | a published checkpoint is committed, answers with its artifact and gives its staging back unless it is stuck |
| RequestOutcomes.PublicationFailedOutcome | agent/pagebroker/broker.cpp:804-815 | a failed publication leaves it staged with everything it holds, and the index for the next Commit if one was saved |
| RequestOutcomes.AbortOutcome | agent/pagebroker/broker.cpp:818-847 | a live transaction in time ends Aborted with bytes, slot, directory and destination returned; if its directory is stuck it is Aborting with its holdings kept; while the GPU is busy it is Aborting, cancelled and has one more waiter; each answer exactly under its own condition; a committed or expired one is unchanged |
| RequestOutcomes.AbortResumeOutcome | agent/pagebroker/broker.cpp:132-144 | an Abort that waited comes to the same end, with one waiter less |
| RequestOutcomes.GpuRequestOutcome | agent/pagebroker/broker.cpp:858-908 | a result is replayed exactly to the recorded request; a run starts exactly for the first request of the right direction or for one repeated after a target conflict; an expired transaction goes Aborting; everything else changes nothing |
| RequestOutcomes.GpuFinishOutcome | agent/pagebroker/broker.cpp:935-946 | a target conflict leaves the operation ready for the same request; any other end is recorded for good and answered to that request |
| RequestRuns.NothingCommitsLate | agent/pagebroker/broker.cpp:743-773 | along any run, whatever is committed or publishing was asked to by a Commit that met it staged, before its deadline and done with GPU work |
| RequestRuns.ExpiredNeverCommits | agent/pagebroker/broker.cpp:743-745 | along any run, a transaction that was not already publishing is never committed by Commits that come at or after its deadline |
| RequestRuns.AbortInTheBroker | agent/pagebroker/broker.cpp:818-847 | in any state of the broker an Abort has its answer logged and its effect on this transaction, and every other transaction, the registry and the queue stay as they were |
| RequestRuns.CancelledIsNeverStaged | agent/pagebroker/transaction.cpp:162-166 | cancelled before it was staged, a transaction is never staged, however the run goes on |
| StagingOutcomes.RestoreAdmitOutcome | agent/pagebroker/broker.cpp:580-595 | a restore is admitted exactly if it is new, its staging place is empty and the limits leave room; a refused one is Aborted with nothing left, and its ID is free exactly for the failures that free it |
| StagingOutcomes.RestoreScanOutcome | agent/pagebroker/broker.cpp:595-602 | it goes on exactly if the source was read in time and its inventory is wholly in the budget |
| StagingOutcomes.RestoreMkdirOutcome | agent/pagebroker/broker.cpp:606-612 | its directory is created exactly if it is new and there is time; otherwise the shared bytes go back |
| StagingOutcomes.LateRestoreIsNotStaged | agent/pagebroker/broker.cpp:613-636 | it is Staged exactly if the copy succeeded, uncancelled and before the deadline; otherwise Aborted, with something left exactly if its directory is stuck |
| StagingOutcomes.CheckpointAdmitOutcome | agent/pagebroker/broker.cpp:687-694 | a new checkpoint is admitted exactly if the limits leave room, its destination is free and there is time |
| StagingOutcomes.CheckpointRepeatOutcome | agent/pagebroker/broker.cpp:673-684 | a repeated checkpoint is ready exactly if the staged one is direct, in time and of the same output; nothing changes |
| StagingOutcomes.LateCheckpointIsNotStaged | agent/pagebroker/broker.cpp:692-722 | it is Staged exactly if its output directory could be created new, uncancelled and before the deadline |
| DirectNames.NamesAreDistinct | agent/pagebroker/transfer/filesystem/filesystem_storage.cpp:302-304 | for accepted IDs that do not end in a marker and another accepted ID, directories agree exactly if path and ID do |
| DirectNames.CollidesIffHidden | agent/pagebroker/transfer/filesystem/filesystem_storage.cpp:302-304 | an accepted ID shares its directory with a longer path and an accepted ID exactly if it ends in a marker and an accepted ID |
| DirectNames.HiddenMarkersCollide | agent/pagebroker/transfer/filesystem/filesystem_storage.cpp:302-304 | gives that other path and ID |
| DirectNames.TwoRequestsOneDirectory | agent/pagebroker/transfer/filesystem/filesystem_storage.cpp:302-304 | two accepted requests with one directory |
| Cancellations.StoppedIffRequestedAbove | agent/pagebroker/cancellation.hpp:75-100 | a scope still in use has stopped exactly if it or an ancestor was cancelled, whatever became of the handles in between |
| Cancellations.RetainedIffAboveAHandle | agent/pagebroker/cancellation.hpp:75-91 | registrations live exactly for the scopes with a handle at or below them |
| Cancellations.RequestArrives | agent/pagebroker/cancellation.hpp:70-73 | a stop reaches everything below that is in use |
| Cancellations.Scopes.RequestStop | agent/pagebroker/cancellation.hpp:70-73 | the forwarding callbacks terminate; only scopes below are stopped, and every registered one of them is |
| Cancellations.Scopes.Cancel | agent/pagebroker/cancellation.hpp:33 | stops the scope and everything in use below it, nothing above and nothing beside it |
| Cancellations.Scopes.NewScope | agent/pagebroker/cancellation.hpp:84-95 | a scope made below a stopped parent is stopped at once |
| Cancellations.Scopes.ChildOf | agent/pagebroker/cancellation.hpp:61-62 | a child stops with its parent and inherits its deadline |
| Cancellations.Scopes.Join | agent/pagebroker/cancellation.hpp:63-67 | a join stops with either parent and takes the earlier deadline |
| Cancellations.Scopes.WithDeadline | agent/pagebroker/cancellation.hpp:53-59 | a view shares the stop state and never has a later deadline |
| Cancellations.Scopes.Release | agent/pagebroker/cancellation.hpp:75-82 | letting go of a scope lets go of exactly the registrations nobody needs any more |
| Cancellations.Scopes.Drop | agent/pagebroker/cancellation.hpp:75-82 | dropping a handle stops nothing and keeps the registrations of all other handles |
| Cancellations.Scopes.WhyStopped | agent/pagebroker/cancellation.hpp:34-42 | an expired deadline wins; the deadline is the least of all it was derived from; cancelled means an ancestor or the handle itself was |
| IoEngine.DrainedMeaning | agent/pagebroker/io_engine.cpp:144-157 | polling ends with a status exactly if the first poll to bring one brings that one, and no earlier poll found the deadline passed |
| IoEngine.WaitedMeaning | agent/pagebroker/io_engine.cpp:136-165 | waiting ends in exactly one of three ways, told by the polls and the release |
| IoEngine.Engine.Open | agent/pagebroker/io_engine.cpp:99-109 | one file at a time, recorded only if it could be registered |
| IoEngine.Engine.Submit | agent/pagebroker/io_engine.cpp:111-134 | only a free slot with an open file takes a request; a request that was created is kept even if posting it fails |
| IoEngine.Engine.Wait | agent/pagebroker/io_engine.cpp:136-165 | returns exactly if the slot was empty or the transfer ended in success and was released; reports code exactly if it ended in that failure and was released; anything else is fatal; the slot is empty afterwards unless it is |
| IoEngine.Engine.Close | agent/pagebroker/io_engine.cpp:167-192 | every slot empty and the file closed whichever slots fail, then the failure of the lowest slot whose transfer ended in one; fatal exactly if something cannot drain or be released; nothing is unregistered while a slot holds a request |
| IoEngine.Engine.Destroy | agent/pagebroker/io_engine.cpp:83-97 | the buffers go last, with every slot empty, whatever failed before |
| ContainerMappings.CheckedIffMapping | api/podcontract/protocol.go:241-268 | the checks accept exactly the lists that map the captured container to distinct valid destinations |
| ContainerMappings.CheckAll | api/podcontract/protocol.go:241-268 | the loop with its set of destinations reports the first violation |
| ContainerMappings.ParseAll | api/podcontract/protocol.go:211-237 | the loop reads the pairs of the annotation or reports the malformed entry |
| ContainerMappings.SameMappings | api/podcontract/restore_pod.go:219-233 | equally many, and each of the left among the right |
| ContainerMappings.SameIffRearranged | api/podcontract/restore_pod.go:219-233 | for valid lists this means being a rearrangement |
| ContainerMappings.FormatRoundTrip | api/podcontract/restore_pod.go:207-217 | what is written parses back to the same valid pairs |
| ContainerMappings.FormatIsCanonical | api/podcontract/restore_pod.go:207-217 | the annotation does not depend on the order of the pairs |
| RestorePods.ScanMeaning | api/podcontract/restore_pod.go:294-310 | a scan succeeds exactly if one and only one entry is relevant and that one is valid, and finds nothing exactly if none is |
| RestorePodLaws.VolumeLaw | api/podcontract/restore_pod.go:269-281 | the control volume is there afterwards, and only it was added |
| RestorePodLaws.MountLaw | api/podcontract/restore_pod.go:316-329 | the control mount is there afterwards, appended exactly if it was missing, and all other mounts are kept in place |
| RestorePodLaws.EnvironmentLaw | api/podcontract/restore_pod.go:384-402 | both variables are there afterwards, each appended exactly if it was missing, and all other variables are kept in place |
| RestorePodLaws.SeccompLaw | api/podcontract/restore_pod.go:459-482 | the profile matches afterwards, or was left to the caller; the rest of the security context is kept |
| RestorePodLaws.ContainerLaw | api/podcontract/restore_pod.go:239-257 | a shaped container is the owner's with exactly what was missing added; it passes all checks and is a fixed point |
| RestorePodLaws.ContainersLaw | api/podcontract/restore_pod.go:235-258 | each destination is shaped once, every other container stays as it was |
| RestorePodLaws.AnnotationsLaw | api/podcontract/restore_pod.go:141-184 | written annotations validate, are a fixed point, and no other annotation changes |
| RestorePodLaws.BuildNeverFailsItsOwnCheck | api/podcontract/restore_pod.go:46-65 | once the passes succeed the final validation does |
| RestorePodLaws.BuildIsIdempotent | api/podcontract/restore_pod.go:46-65 | a built Pod validates, and building it again changes nothing |
| RestorePodLaws.BuildFrame | api/podcontract/restore_pod.go:41-65 | a destination keeps all that its owner wrote and gains exactly what was missing; all other containers, annotations and volumes stay |
| RestorePodLaws.ValidPodsCanBeBuilt | api/podcontract/restore_pod.go:67-102 | without options every Pod that validates can be built |
| RestorePodMeaning.ValidateMeaning | api/podcontract/restore_pod.go:71-102 | accepted exactly if the request is well-formed, the restore-from annotation trims to its snapshot, the mapping annotation reads as a rearrangement of its mappings, one volume is the control volume and an emptyDir, and the first container of each destination has one control mount, one control variable and at most one legacy variable, all valid |
| RestorePodMeaning.BuildMeaning | api/podcontract/restore_pod.go:46-65 | built exactly if the request is well-formed and annotations, volumes, mounts, variables and seccomp profiles are each missing or already right, and every destination is there |
| RestorePodBuilder.HasValidControlVolume | api/podcontract/restore_pod.go:294-310 | the loop finds the one valid volume, none, or the first error |
| RestorePodBuilder.HasValidControlMount | api/podcontract/restore_pod.go:347-363 | likewise for mounts |
| RestorePodBuilder.HasValidControlEnv | api/podcontract/restore_pod.go:418-434 | likewise for variables |
| RestorePodBuilder.FindContainer | api/podcontract/restore_pod.go:260-267 | the first container of that name |
| RestorePodBuilder.EnsureDestination | api/podcontract/restore_pod.go:239-257 | the passes over one container, in order, with the first error |
| RestorePodBuilder.CheckThrough | api/podcontract/restore_pod.go:89-118 | the checks over all destinations, up to the first that fails |
| RestorePodBuilder.RestorePod.EnsureRestoreAnnotations | api/podcontract/restore_pod.go:141-184 | in place what the annotation pass promises |
| RestorePodBuilder.RestorePod.EnsureControlVolume | api/podcontract/restore_pod.go:269-281 | in place what the volume pass promises |
| RestorePodBuilder.RestorePod.EnsureDestinations | api/podcontract/restore_pod.go:239-257 | the loop over the mappings shapes the containers in place |
| RestorePodBuilder.RestorePod.ValidateMinimum | api/podcontract/restore_pod.go:79-102 | accepts exactly the Pods that restore what a normal request says, or gives the first error of the checks in order |
| RestorePodBuilder.BuildPod | api/podcontract/restore_pod.go:46-65 | a fresh Pod that satisfies all laws above, exactly if nothing in the given one contradicts a well-formed request, or the first error; the Pod it was given is left alone |
| RestorePodBuilder.ValidatePod | api/podcontract/restore_pod.go:71-77 | accepts exactly the Pods that restore what a well-formed request says |
| RestoreMarker.ParseMarker | api/podcontract/protocol.go:151-178 | the loop over the lines finds the one PID or the first error |
| RestoreMarker.ParseMeaning | api/podcontract/protocol.go:151-178 | a text names a process exactly if one of its lines does and every other line is blank or has another key; a second PID line or a line that is no pair is refused |
| RestoreMarker.FormatRoundTrip | api/podcontract/protocol.go:144-178 | what is written is read back exactly if it names a process |
| RestoreMarker.ForeignLinesAreIgnored | api/podcontract/protocol.go:149-164 | a blank line or one with an unknown key can be put between any two lines of a marker |
| StoreIdentity.WriteFields | api/storage/identity.go:44-54 | the loop writes the length-prefixed fields in order |
| StoreIdentity.PreimageIsInjective | api/storage/identity.go:44-54 | no two lists of fields share a preimage, whatever their lengths |
| StoreIdentity.CleanKeepsComponents | api/storage/pvc.go:53-66 | cleaning keeps exactly the components that are neither empty nor a dot, and whether the path is absolute |
| StoreIdentity.BasePathsAgree | api/storage/pvc.go:50-66 | normalized base paths agree exactly if these components do |
| StoreIdentity.PrefixesAgree | api/storage/s3.go:93-114 | likewise for bucket prefixes, with the empty prefix for the root |
| StoreIdentity.PvcPreimage | api/storage/pvc.go:31-66 | a claim has an identity exactly if its names are valid and its base path is absolute, readable and without parent components; the preimage is the five documented fields in order |
| StoreIdentity.S3Preimage | api/storage/s3.go:37-114 | a bucket has an identity exactly if endpoint, region, bucket and a relative prefix without parent components are usable; the preimage is six fields in order |
| StoreIdentity.PvcIdentity | api/storage/pvc.go:35-48 | two valid claims share a preimage exactly if namespace, claim and components agree |
| StoreIdentity.S3Identity | api/storage/s3.go:37-53 | two valid buckets share a preimage exactly if normalized endpoint, region, bucket and components agree |
| StoreIdentity.KindsAreApart | api/storage/s3.go:31-53 | a claim and a bucket never share a preimage |
| StoreIdentity.StoreIdsFollowDigests | api/storage/identity.go:21-54 | IDs agree exactly if the digests do, and every ID matches the pattern its readers demand |
| BenchmarkHistory.OrderIsUnique | e2e/snapshot_e2e/benchmark_history.py:856-869 | records of distinct identities have one sorted order only |
| BenchmarkHistory.RawFilesSuffice | e2e/snapshot_e2e/benchmark_history.py:304-321 | raw files that hold certain records give them back in their one order, however the files are listed |
| BenchmarkHistory.AddedHolds | e2e/snapshot_e2e/benchmark_history.py:324-341 | the files written hold exactly the records known in the end |
| BenchmarkHistory.KnownStays | e2e/snapshot_e2e/benchmark_history.py:328-334 | what was known stays |
| BenchmarkHistory.FirstRecordIsKept | e2e/snapshot_e2e/benchmark_history.py:328-341 | whatever is new is the first record of an identity that was not known |
| BenchmarkHistory.OrderDoesNotMatter | e2e/snapshot_e2e/benchmark_history.py:324-343 | values whose new identities and names are distinct give the same sorted records in any order |
| BenchmarkHistory.ChunksPartition | e2e/snapshot_e2e/benchmark_history.py:370-374 | the monthly chunks, one after the other, are the sorted records |
| BenchmarkHistory.CountsAddUp | e2e/snapshot_e2e/benchmark_history.py:396-416 | the counts of the chunks add up to the number of records |
| BenchmarkHistory.NewestIsLatest | e2e/snapshot_e2e/benchmark_history.py:409-415 | the newest result is the latest finish of any record |
| BenchmarkHistory.RebuildingChangesNothing | e2e/snapshot_e2e/benchmark_history.py:363-419 | after records were stored, the raw files alone give the same chunks and manifest |
| HistoryMeaning.EarlierFirst | e2e/snapshot_e2e/benchmark_history.py:856-869 | sorted records are in order of their start, and attempts of one run that start together in order of attempt |
| HistoryMeaning.ManifestDescribes | e2e/snapshot_e2e/benchmark_history.py:391-407 | the manifest lists every month that has records, newest first, each with its count, its earliest and latest start and exactly its suites |
| HistoryMeaning.NameTellsAttemptAndDay | e2e/snapshot_e2e/benchmark_history.py:346-360 | records under one name have the same attempt, day and names as far as a path can tell |
| HistoryMeaning.SegmentIsSafe | e2e/snapshot_e2e/benchmark_history.py:826-830 | a path segment holds only safe characters and neither begins nor ends with a dash or a dot; a safe value is its own segment |
| HistoryStore.History.LoadHistory | e2e/snapshot_e2e/benchmark_history.py:304-321 | reads every file, or reports the first malformed or duplicate one |
| HistoryStore.History.AddResults | e2e/snapshot_e2e/benchmark_history.py:328-341 | adds unseen identities; on success and failure alike no file that was there changes |
| HistoryStore.History.RebuildIndexes | e2e/snapshot_e2e/benchmark_history.py:363-419 | chunks and manifest are exactly those of the sorted records; chunks of other months are gone |
| HistoryStore.History.StoreResults | e2e/snapshot_e2e/benchmark_history.py:324-343 | on success the index is that of everything known; on failure the index is untouched |
| HistoryStore.GroupByMonth | e2e/snapshot_e2e/benchmark_history.py:370-374 | each month's records, in order |
| HistoryStore.CollectFound | e2e/snapshot_e2e/benchmark_history.py:192-223 | per expected benchmark the newest attempt, of equal attempts the first found |
| HistoryStore.CollectCurrent | e2e/snapshot_e2e/benchmark_history.py:168-255 | one result per expected benchmark, in order; a synthesized one exactly where none was found |

## Left out

- Machine integers: byte counts are mathematical integers, so the wrap-around of `uintmax_t` in the reservation of staging bytes is not modelled.
- RunTheorems.NoStagingIsOrphaned: a direct checkpoint's directory is the pair of published path and ID. By name, one owner per directory holds on the condition that no ID hides a marker (`DirectNames.HidesMarker`), which is `RunTheorems.NamedStagingHasOneOwner`; two transactions whose names collide would share one directory.
- GpuShield.RunningGpuIsShielded: the part about the staging directory holds by name on the same condition.
- Parent directories made along the way are not tracked.
- Engines: they are arbitrary results. A staged engine works in the directory it was given, a successful publication marks the artifact published, and a failed one may have saved its retry data.
- Daemon, sockets, request decoding, signal handling and the watchdog behind fatal cleanup; a fatal cleanup is an outcome after which nothing more happens.
- Brokers.Broker.ReapExpiredTransactions: the snapshot of the registry is an argument, so that the order of the hash table is left open.
- Threads inside one class method: the classes are sequential objects; interleaving is what the run model is for.
- Cancellations: the memory order of concurrent stop requests, and a callback that is destroyed while it runs.
- IoEngine.Engine.Wait: the polls given as an argument last until the deadline, since time passes.
- RestorePods: fields the shaper never reads are one opaque value per object, and a missing annotation map is an empty one. Error texts are constructors without their details.
- Broker steps for the passing of time and for the destruction of a transaction nobody holds are steps of the run model without a method of their own.
- StoreIdentity: SHA-256 and the URL parsing of the S3 endpoint are parameters; the normalized endpoint is assumed to be shorter than 4 GiB. `path.Clean` is modelled for paths without parent components, the only ones it is called on.
- BenchmarkHistory: validation of a result document is taken as done; a month and the time within it stand for a normalized timestamp, and the components of a raw file's path for its string. Comparison keys, comparisons with a baseline, summaries and warnings are not modelled.
- API types, compatibility checks, Kubernetes clients, node agent, runtime integration and dashboards are not part of this model.
