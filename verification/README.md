# Offline synchronization: a verified model

This project models an offline-first synchronization system: a client with a replica, a
durable mutation queue and a cursor, a reference server with a change log and a
deduplication tracker, the conflict strategies between them, the scheduler and the WebSocket
transport that drive them, and the query translation of the SQLite storage. Each part is
described twice. Objects that the program updates in place are classes with methods and
loops; each method is proved against a function of the state, and the properties of whole
runs are lemmas about those functions.

How the parts fit:

- `Json`, `Protocol`: documents, wire types and the validators at the client's boundary.
- `ServerSpec`, `ServerLaws`, `ServerRequests`, `ServerOperations`, `ServerEffects`, `SyncServer`: the server.
  Two auxiliary fields, the history of accepted mutations and the number of pruned ids, record
  what happened; no operation reads them.
- `DeepMerge`, `FieldOperations`, `Strategies`, `ConflictManager`: the conflict algebra.
- `Queue`, `ClientStorage`: the stored mutations, their order and their transitions, and the
  storage objects over them.
- `EngineSpec`, `EngineLaws`, `Rounds`, `SyncEngine`: one cycle as a list of durable writes,
  and the round of client and server that the engine's methods carry out.
- `Draining`, `RoundTrips`, `Verdicts`, `Scenarios`: what rounds achieve, with which strategy.
- `World`, `Convergence`, `ConvergenceExact`, `ConvergenceLimits`, `Conservation`, `Cycles`: the same cycle cut
  into single writes, interleaved with local writes, other clients, prunings, lost messages,
  crashes and recoveries. A message that arrives late or twice is a foreign request.
- `LocalWrites`, `Collections`, `Integrity`, `IntegrityChecker`, `WriteReports`: atomic local
  writes, sequence numbers, and what the checkers report about them.
- `SchedulerSpec`, `SyncScheduler`, `TransportSpec`, `TransportLaws`, `TransportEffects`, `WsTransport`: two
  event machines, each with the timers, sockets, calls and promises that are really alive.
- `QuerySpec`, `QueryValues`, `QueryAgreement`, `QueryLaws`, `QueryTranslator`: queries in memory and as SQL clauses with
  positional parameters; the answers SQLite may give are a relation.

What the specification functions compute is also said without them: field by field
in the methods, by cases in `ServerEffects`, `Verdicts`, `TransportEffects` and `QueryValues`.
Lemmas without a row below are steps towards the others, or single cases.

Where the code and its own words differ, the model follows the code and says exactly how far
the words hold:

- The engine's comments say that `retry` puts a mutation back to PENDING
  (packages/core/src/sync-engine.ts:246, 294); it makes it IN_FLIGHT, where it stays until a
  recovery (`Conservation.OnlyPendingMoves`).
- Changes and cursor are called atomic (packages/core/src/sync-engine.ts:260); they are two
  writes, and `ConvergenceExact.CrashInRunIff` says exactly which crashes leave a key off the
  cursor.
- add and remove are called commutative (packages/core/src/types/mutation.ts:13); the exact
  condition is `FieldOperations.ConfluentIffExchangeable`.
- A local create, update or delete raises the local revision that is later sent as its base
  (`LocalWrites.WriteRaisesRevision`), so an update conflicts first and is accepted a round later (`RoundTrips.WriteTakesTwoRounds`), and a create
  is answered with an entity whose timestamps are empty, which the client rejects
  (`Draining.ResponseValidIff`, `RoundTrips.CreateBlocksForever`,
  `Scenarios.CreateNeverSyncs`).
- Conflicts are resolved after the server's changes were applied, so client-wins can see the
  server's data as the client's (`RoundTrips.ClientWinsLosesWrite`), and last-write-wins can
  lose the younger write; when it survives is `Verdicts.YoungerWriteSurvivesIff`.
- A soft-deleted entity is said to remain until it is synced to the server
  (packages/core/src/collection.ts:363-366). A deletion is sent as a `set` of the unchanged data,
  conflicts, and is undone by the resolution (`Scenarios.DeletionIsUndone`).
- Deduplication survives pruning for a fixed protocol mutation (`ServerLaws.ExactlyOnce`), not
  for its id (`ServerLaws.RebasedResendAppliesTwice`).
- The minimum cursor can be lowered again, and a filtered snapshot moves the whole cursor; which
  prunings and snapshots are safe are if-and-only-ifs (`ServerRequests.PruneCoverage`,
  `ConvergenceExact.ChangesExactIff`, `ConvergenceExact.SnapshotExactIff`).
- A stopped scheduler goes on if a cycle is still running or a repeated start has leaked a
  listener (`SchedulerSpec.StopIsFinalIff`).
- Nothing in the program calls `initializeSequence` after a restart; what that costs is
  `LocalWrites.ReplaysThroughoutIff`.
- `contains` is documented as case-sensitive (packages/storage/src/query.ts:26); in SQL it is not
  (`QueryAgreement.ContainsAgreesIff`).
- The pong timeout relies on a close event that only a socket which closes at once delivers
  (`TransportLaws.StaleRecoversIff`).
- A sequence gap is reported as a sign of loss; on a client that only writes locally it is a
  failed write (`WriteReports.GapsAreFailedWrites`).

## Model

| member | source | states |
|---|---|---|
| SyncServer.ServerChangeLog.Append | packages/server/src/change-log.ts:70-76 | The entry gets the next sequence and goes to the end; nothing else of the log changes. |
| SyncServer.ServerChangeLog.GetChangesSince | packages/server/src/change-log.ts:84-90 | Exactly the entries above the cursor, in log order; all of them if the cursor is not a number. |
| SyncServer.ServerChangeLog.SetMinimumAvailableCursor | packages/server/src/change-log.ts:115-121 | The minimum is replaced, even by a lower one, and entries below it are dropped. |
| SyncServer.ServerMutationTracker.Record | packages/server/src/mutation-tracker.ts:39-44 | The id is known under its sequence; every other id as before. |
| SyncServer.ServerMutationTracker.PruneBelowSequence | packages/server/src/mutation-tracker.ts:53-62 | An id stays exactly if its sequence is not below the given one, and keeps it; the count returned is how many went. |
| SyncServer.SyncServer.ProcessMutation | packages/server/src/sync-server.ts:231-318 | A known id is a duplicate, a stale base a conflict, anything else is applied and stored: one revision further, updated now, with the creation time and flag it had, or the mutation's time and not deleted if it is new. |
| SyncServer.SyncServer.HandleSyncRequest | packages/server/src/sync-server.ts:96-151 | The loop over a request changes store, log and tracker as the request function says and answers with changes, verdicts and cursor; a cursor that is too old changes nothing. |
| SyncServer.SyncServer.ProcessMutations | packages/server/src/sync-server.ts:108-131 | Each mutation is judged on the state the ones before have left, and accepted ones are logged and tracked. |
| SyncServer.SyncServer.HandleSnapshotRequest | packages/server/src/sync-server.ts:161-184 | Every entity of the requested collections, or of all of them, with the current cursor. |
| SyncServer.SyncServer.SetMinimumAvailableCursor | packages/server/src/sync-server.ts:191-198 | Log and tracker are pruned together. |
| ServerLaws.HistoryLaw | packages/server/src/sync-server.ts:116-131 | After every run of requests and prunings the store is the fold of everything accepted, the retained log is a contiguous run ending at the head, and tracked plus pruned ids number the head. |
| ServerLaws.EntryRevision | packages/server/src/sync-server.ts:233-280 | The n-th accepted mutation of an entity was based on revision n - 1 and made revision n. |
| ServerLaws.ExactlyOnce | packages/server/src/sync-server.ts:231-280 | In any run, whatever is resent or pruned, a protocol mutation takes effect at most once. |
| ServerLaws.IdsOnceUnlessPruned | packages/server/src/mutation-tracker.ts:29-44 | By id: as long as no pruning has dropped an id from the tracker, no id takes effect twice, whatever bases it is sent with. |
| ServerLaws.RebasedResendAppliesTwice | packages/server/src/mutation-tracker.ts:53-62 | The limit of that: a pruned id with the newer base revision is applied a second time. |
| ServerLaws.CursorIsTotalRevision | packages/server/src/change-log.ts:55-57 | In every reachable state the cursor is the sum of all entity revisions. |
| ServerEffects.StoredEntityOrigin | packages/server/src/sync-server.ts:282-305 | After every run each stored entity is not deleted, was created with the time of the first mutation of its key, updated when the last one was accepted, and stands at the number of its mutations. |
| ServerEffects.LogEntry | packages/server/src/sync-server.ts:307-317 | After every run each entry of the log names position, key, operation, field and value of one accepted mutation and carries the entity of that moment. |
| ServerEffects.PrunedTracker | packages/server/src/mutation-tracker.ts:53-62 | A pruning to a sequence keeps exactly the ids tracked there or later, at the same place. |
| ServerEffects.RunTracksLog | packages/server/src/mutation-tracker.ts:44-62 | After every run the mutation of every entry that the log still has is tracked, at its position or a later one. |
| ServerEffects.ResendOfLoggedIsDuplicate | packages/server/src/sync-server.ts:231-235 | So whatever the log still holds is, sent again with any base, acknowledged without effect. |
| ServerRequests.RequestPartition | packages/server/src/sync-server.ts:116-131 | Acknowledged and conflicting ids together are the ids of the request, each as often as it was sent. |
| ServerRequests.AcknowledgedIsApplied | packages/server/src/sync-server.ts:116-131 | Whatever is acknowledged is in the history of accepted mutations. |
| ServerRequests.RepeatIsNoOpIff | packages/server/src/sync-server.ts:96-151 | A repeated request changes the server exactly if, at the time of the repetition, one of its mutations is still due. |
| ServerRequests.LostResponseRetry | packages/server/src/sync-server.ts:96-151 | If no base revision is ahead of the server, a request handled twice in a row leaves the server unchanged the second time and gets the same changes and cursor; it gets the same acknowledgements and conflicting ids exactly if no id was given both verdicts the first time, which requests with distinct ids never see. |
| ServerRequests.VerdictsRepeatIff | packages/server/src/sync-server.ts:116-131 | That condition, for the list of mutations itself. |
| ServerRequests.SharedIdChangesVerdict | packages/server/src/sync-server.ts:231-280 | Two mutations under one id, the first stale and the second due, on any server: first both verdicts, then two acknowledgements. |
| Rounds.ReplicaRequestRepeats | packages/core/src/sync-engine.ts:553-586 | A request whose bases all come from one replica, as the client sends it, never changes the server a second time, however far its bases run ahead. |
| ServerRequests.AheadBreaksRetry | packages/server/src/sync-server.ts:233-280 | On any server: a base one ahead, with the mutation that makes up the difference later in the request, is applied by the repetition. |
| ServerRequests.CompleteIff | packages/server/src/change-log.ts:84-90 | The changes for a position are complete exactly if no later position has been pruned. |
| ServerRequests.CoveredIff | packages/server/src/change-log.ts:98-107 | Every cursor the server accepts gets complete changes exactly if the minimum is not below what is gone. |
| ServerRequests.PruneCoverage | packages/server/src/change-log.ts:115-121 | A pruning keeps that exactly if the new minimum does not fall below what earlier ones removed. |
| ServerRequests.SafeRunsAreCovered | packages/server/src/change-log.ts:98-121 | In every run of such prunings every accepted cursor gets complete changes. |
| ServerEffects.NoCursorGetsTheLog | packages/server/src/sync-server.ts:96-105 | After every run a client without a cursor, or with one that is no number, is not refused and is sent all that the log holds. |
| ServerOperations.RemoveUndoesAdd | packages/server/src/sync-server.ts:376-399 | A remove takes an add back exactly if the field held an array without the (scalar) value. |
| ServerEffects.FieldEffect | packages/server/src/sync-server.ts:354-404 | The field after an operation: the sum or difference of the numbers there, the items and the new one, the items without the equal ones; unknown operations change nothing. |
| ServerEffects.WithoutDistributes | packages/server/src/sync-server.ts:393-395 | Removing goes item by item: every equal scalar goes and the rest keeps its order. |
| DeepMerge.MergeDeep | packages/conflict/src/strategies.ts:417-441 | The loop computes the recursive merge of two documents, and terminates. |
| DeepMerge.MergeAtPath | packages/conflict/src/strategies.ts:417-441 | What the merge holds at any path, in terms of what its arguments hold there. |
| DeepMerge.MergeAbsorbs | packages/conflict/src/strategies.ts:417-441 | Merging over a document changes it exactly if it does not already cover it. |
| DeepMerge.MergeIdempotent | packages/conflict/src/strategies.ts:417-441 | Merging the same source twice is merging it once, and merging a document with itself changes nothing. |
| DeepMerge.MergeAssociative | packages/conflict/src/strategies.ts:417-441 | Merging is associative for three documents exactly if none of the middle one's non-objects stands between objects of the others of which the last does not cover the first. |
| DeepMerge.ResurrectionAlongPaths | packages/conflict/src/strategies.ts:417-441 | That condition said of single paths through the three documents. |
| DeepMerge.CoversAlongPaths | packages/conflict/src/strategies.ts:417-441 | Covering said of single paths. |
| FieldOperations.ConfluentIffExchangeable | packages/conflict/src/strategies.ts:367-411 | A batch of field operations gives the same record, array order aside, in every order exactly if no field mixes numeric with set operations or both adds and removes one scalar. |
| FieldOperations.AddRemoveOrderMatters | packages/core/src/types/mutation.ts:9-16 | The documented commutativity of add and remove fails for one value on both. |
| ServerEffects.ClientFieldEffect | packages/conflict/src/strategies.ts:367-411 | The client's version, field by field: the same numbers, an item added once, an array left behind by a removal; other fields are untouched. |
| Strategies.ManagerTakesFirstAnswer | packages/conflict/src/resolver.ts:126-144 | The answer is that of the first strategy, of the collection's own or the default and then the chain, that has one; there is none exactly if no strategy has one. |
| Strategies.NeverManualResolves | packages/conflict/src/strategies.ts:21-130 | Strategies built without the manual one always resolve. |
| Strategies.FieldMergeMatchesServer | packages/conflict/src/strategies.ts:162-250 | A merged field operation is what the server would have made of the mutation, exactly if an added value is new and a removal meets an array. |
| Verdicts.OutcomeTellsData | packages/conflict/src/strategies.ts:21-296 | However strategies are combined, the outcome tells the data: the server's own, the answer of client-wins, or the field operation applied to the server's data. |
| Verdicts.ClientWinsOnPatch | packages/conflict/src/strategies.ts:59-69 | A patch is merged into the server's data: its values where it has them, the server's where it is silent. |
| ConflictManager.ConflictResolutionManager.Resolve | packages/conflict/src/resolver.ts:126-144 | The loop over the fallback chain gives the manager's answer. |
| ConflictManager.ConflictResolutionManager.SetCollectionStrategy | packages/conflict/src/resolver.ts:156-164 | Afterwards this collection uses the strategy and every other collection what it used. |
| ConflictManager.ConflictResolutionManager.RegisterStrategy | packages/conflict/src/resolver.ts:149-151 | A registered name is stored and no resolution ever depends on it. |
| ClientStorage.Storage.PutMutation | packages/storage/tests/in-memory-storage-adapter.ts:179-187 | A record with a known id is overwritten in its place, a new one is appended, and ids stay distinct. |
| ClientStorage.MutationQueue.Enqueue | packages/core/src/mutation-queue.ts:137-144 | The mutation is stored under its id. |
| ClientStorage.MutationQueue.DequeuePending | packages/core/src/mutation-queue.ts:152-155 | The first pending mutations in sequence order, up to the limit. |
| ClientStorage.MutationQueue.UpdateMutationStatus | packages/core/src/mutation-queue.ts:212-231 | The record with the id gets the status and keeps its place and everything else; all others are untouched, and an unknown id throws. |
| ClientStorage.MutationQueue.MarkFailed | packages/core/src/mutation-queue.ts:239-256 | FAILED with the error; nothing else changes. |
| ClientStorage.MutationQueue.MarkConflict | packages/core/src/mutation-queue.ts:265-284 | CONFLICT with the reason or none; nothing else changes. |
| ClientStorage.MutationQueue.Retry | packages/core/src/mutation-queue.ts:292-309 | IN_FLIGHT, one retry further, the error forgotten; not PENDING. |
| ClientStorage.MutationQueue.ResolveConflict | packages/core/src/mutation-queue.ts:321-346 | PENDING, one retry further, with the new value and operation where given. |
| ClientStorage.MutationQueue.GetMaxSequence | packages/core/src/mutation-queue.ts:356-365 | The largest stored sequence of the collection, or zero. |
| ClientStorage.RecoveryManager.ResetInFlightMutations | packages/core/src/recovery-manager.ts:161-181 | Every IN_FLIGHT mutation becomes PENDING, no other changes, and each of them is reported once. |
| Queue.SortIsStable | packages/core/src/mutation-queue.ts:370-379 | Mutations with one sequence keep the order in which storage lists them. |
| Queue.BatchIsPrefixPerCollection | packages/core/src/mutation-queue.ts:152-155 | A batch restricted to a collection is a prefix of what that collection has pending. |
| Queue.PendingInOrder | packages/core/src/mutation-queue.ts:370-379 | What is pending is in sequence order, and a collection's part of it is exactly what the collection has pending. |
| Queue.DequeueIsBatch | packages/core/src/mutation-queue.ts:152-155 | A batch has distinct pending mutations of the queue. |
| Queue.BatchSize | packages/core/src/mutation-queue.ts:152-155 | A batch is as large as the limit allows: the smaller of the limit and the number of pending mutations. |
| Queue.MaxSequenceLaw | packages/core/src/mutation-queue.ts:356-365 | The maximum bounds the collection's sequences and is one of them. |
| Queue.StatusesSum | packages/core/src/mutation-queue.ts:184-187 | The counts of the five statuses add up to the stored mutations. |
| Queue.RecoveryIdempotent | packages/core/src/recovery-manager.ts:131-181 | After recovery nothing is IN_FLIGHT, a second one changes nothing, and no mutation loses its identity. |
| SyncEngine.SyncEngine.LoadBaseRevisions | packages/core/src/sync-engine.ts:553-586 | Each entity id gets the revision of the entity in the collection of the first mutation that names it, zero if it is missing. |
| SyncEngine.SyncEngine.BuildRequest | packages/core/src/type-converters.ts:64-84 | The request carries cursor, client and batch, mutation by mutation and field by field, each based on the revision of the replica's entity at the key of the first mutation with its entity id. |
| SyncEngine.SyncEngine.GroupChangesByCollection | packages/core/src/sync-engine.ts:591-604 | Each collection's group is its changes in their order, and only collections with changes have one. |
| SyncEngine.SyncEngine.ApplyChanges | packages/core/src/sync-engine.ts:443-458 | Applying the groups in any order has the effect of the changes in the server's order. |
| SyncEngine.SyncEngine.ApplySyncResponse | packages/core/src/sync-engine.ts:434-462 | The changes are written, then the cursor. |
| SyncEngine.SyncEngine.ApplySnapshotResponse | packages/core/src/sync-engine.ts:467-495 | Every entity of the snapshot is written over the replica, then the cursor; nothing is removed. |
| SyncEngine.SyncEngine.AttemptAutoResolve | packages/core/src/sync-engine.ts:357-422 | Resolved exactly if the resolver answers for a mutation of the batch, given the conflict, the mutation's fields and the entity as it is now; then the entity holds the answer at the server's revision with the server's creation time and flag, the mutation is a pending `set` of it, one retry further, and nothing else has changed. |
| SyncEngine.SyncEngine.HandleAcknowledgements | packages/core/src/sync-engine.ts:263-267 | The acknowledgements of a cycle, one durable write each, up to one that throws. |
| SyncEngine.SyncEngine.HandleConflicts | packages/core/src/sync-engine.ts:269-286 | The conflicts of a cycle, each resolved or marked, up to one that throws. |
| SyncEngine.SyncEngine.RetryUnanswered | packages/core/src/sync-engine.ts:288-297 | What was sent and not answered goes IN_FLIGHT with one more retry. |
| SyncEngine.SyncEngine.ReenqueueAll | packages/core/src/sync-engine.ts:244-253 | After a cursor that is too old the whole batch goes IN_FLIGHT. |
| SyncEngine.SyncEngine.PerformIncrementalSync | packages/core/src/sync-engine.ts:224-309 | Client and server end as the round function says, on success and on every failure. |
| SyncEngine.SyncEngine.PerformSnapshotSync | packages/core/src/sync-engine.ts:315-345 | The same for a snapshot, of some collections or of all. |
| SyncEngine.SyncEngine.ForceSnapshotSync | packages/core/src/sync-engine.ts:209-218 | A snapshot on demand; the cursor moves to the server's whichever collections were asked for. |
| SyncEngine.SyncEngine.Sync | packages/core/src/sync-engine.ts:182-201 | A snapshot without a cursor, a round with one. |
| EngineLaws.BatchOutcome | packages/core/src/sync-engine.ts:258-297 | For any server's response that names known ids: each mutation of the batch is settled, acknowledged or retried, every other is untouched, and entities without a conflict hold what the changes say. |
| EngineLaws.ConflictOutcome | packages/core/src/sync-engine.ts:269-286 | A conflict ends PENDING if the resolver always resolves; if there is none it ends CONFLICT, with both revisions as the reason. |
| EngineLaws.ResolvedRevision | packages/core/src/sync-engine.ts:401-414 | A resolved conflict leaves its entity at a revision the server reported, with the reported creation time and flag and the data that the conflict's mutation now carries. |
| Rounds.VerdictRevisions | packages/server/src/sync-server.ts:231-318 | Of a request whose bases come from one replica at most one mutation per entity is accepted, and only if the replica was up to date. |
| Rounds.VerdictConflict | packages/server/src/sync-server.ts:255-277 | A conflict reports the revision and the entity that the key has at the end of the request, and only if the replica's revision differs. |
| Rounds.OverlayChanges | packages/core/src/sync-engine.ts:443-458 | Overlaying the changes since a position gives every key touched since then the server's entity and leaves the others alone. |
| Rounds.ServerFitsBatch | packages/server/src/sync-server.ts:116-131 | The server answers every mutation of a batch, with distinct verdicts, and none twice. |
| Draining.StaleWriteConflicts | packages/server/src/sync-server.ts:255-277 | A mutation whose entity stands locally at another revision than on the server is reported as a conflict, and the server's entity does not move. |
| Draining.ResponseValidIff | packages/protocol/src/validation.ts:156-176 | The client accepts a response exactly if, for every mutation sent, the server has the entity, knows the mutation, or the client has no revision for it. |
| Protocol.RejectedIff | packages/protocol/src/validation.ts:91-288 | One defect anywhere is enough to reject a response or a snapshot, an empty cursor or a field of a change, a conflict or an entity; without any it is accepted. |
| Draining.RoundMutation | packages/core/src/sync-engine.ts:263-297 | A round leaves each mutation of the batch acknowledged, or conflicting and pending again, and every other untouched. |
| Draining.RoundKey | packages/core/src/sync-engine.ts:258-286 | A key ends a round at the server's revision, or neither side has moved. |
| Draining.ConflictedEntity | packages/core/src/sync-engine.ts:404-413 | After a round, an entity that conflicted has revision, creation time and flag of the server's and the round's time as its last change. |
| Draining.RoundProgress | packages/core/src/sync-engine.ts:224-309 | A round with a non-empty batch strictly decreases pending mutations plus pending entities at another revision than the server's. |
| Draining.QueueDrains | packages/core/src/sync-engine.ts:224-309 | So that many rounds leave every pending mutation acknowledged and every other as it was. |
| RoundTrips.DrainedKeysMatch | packages/core/src/sync-engine.ts:224-309 | And every entity that had something pending is then the same on both sides. |
| RoundTrips.ResolvedRoundTrip | packages/core/src/sync-engine.ts:401-421 | A resolved mutation, alone on its entity and in the batch, is acknowledged by the next round; both sides hold its value, one revision further. |
| RoundTrips.WriteTakesTwoRounds | packages/core/src/sync-engine.ts:357-422 | A local write, which its own revision makes stale, conflicts in the first round and is accepted in the second. |
| RoundTrips.LocalAtResolution | packages/core/src/sync-engine.ts:261-276 | The resolver sees the server's entity, not the client's, if the response changed it. |
| RoundTrips.ClientWinsVerdict | packages/conflict/src/strategies.ts:45-80 | What client-wins therefore decides on a `set`. |
| RoundTrips.ClientWinsLosesWrite | packages/core/src/sync-engine.ts:357-422 | Under client-wins a write that conflicts with an unseen change is replaced by the server's data in replica and queue. |
| RoundTrips.ResolutionLands | packages/core/src/sync-engine.ts:404-419 | A sole conflict that is resolved leaves in the replica the resolved data at the server's revision with the server's creation time and flag, and in the queue a pending `set` of the same data, one retry further. |
| Verdicts.LastWriteWinsRound | packages/conflict/src/strategies.ts:105-127 | Under last-write-wins a sole conflicting `set` ends, in replica and queue, with the server's data unless it is younger than the server's entity, and otherwise with the verdict of client-wins. |
| Verdicts.YoungerWriteSurvivesIff | packages/conflict/src/strategies.ts:105-127 | A younger write survives exactly if the round brings no change of its entity, or wrote the same data. |
| RoundTrips.CreateBlocksForever | packages/server/src/sync-server.ts:264-277 | A pending create of an entity the server lacks makes every round fail, however often it is tried, and the client's state never changes. |
| Scenarios.UpdateReachesServer | packages/core/src/sync-engine.ts:224-309 | From the write on the collection: what is sent first is a `set` of the merged data, with the update's value in each field that it names; within two rounds it is acknowledged, and both sides then hold the same. |
| Scenarios.UpdateArrives | packages/core/src/sync-engine.ts:224-309 | On any server with whose state the client is up to date: under client-wins two rounds bring the update to both sides, its value in every field that it named, the old one in every other, one revision further. |
| Scenarios.ConflictUndeletes | packages/core/src/sync-engine.ts:404-413 | Whatever the resolver says, an entity that conflicted is not deleted after the round. |
| Scenarios.DeletionIsUndone | packages/core/src/collection.ts:374-393 | So a local deletion of an entity both sides have is undone: after the first round it is not deleted in the replica, after the second on neither side, and its mutation is acknowledged. |
| Scenarios.CreateNeverSyncs | packages/core/src/collection.ts:268-294 | From the write on the collection: an entity created by a client of an empty server never reaches it, however many rounds there are. |
| Cycles.WorkIsPerform | packages/core/src/sync-engine.ts:258-297 | Written one by one, the tasks of a cycle leave the disk that the round function leaves. |
| Cycles.UninterruptedCycleIsRound | packages/core/src/sync-engine.ts:224-309 | A cycle of the state machine that nothing interrupts is one round. |
| Convergence.ReplicaConverges | packages/core/src/sync-engine.ts:434-495 | In every run of local writes, foreign requests, safe prunings, lost messages, cycles and crashes, a key without local mutations holds the server's value at some position from the stored cursor on, and the one at the cursor unless a cycle broke off between data and cursor. |
| Convergence.CompletedCycleIsExact | packages/core/src/sync-engine.ts:460-462 | At the end of a cycle that ran through it is the value at the new cursor. |
| ConvergenceExact.SnapshotExactIff | packages/server/src/sync-server.ts:161-184 | A snapshot of some collections brings a key from its value at a position to the value at the head exactly if its collection is among them or nobody touched the key since. |
| ConvergenceExact.ForcedSnapshotExactIff | packages/core/src/sync-engine.ts:209-218 | For a forced snapshot of the state machine: the cursor is at the head, and the key at the cursor's value exactly under that condition. |
| ConvergenceExact.ChangesExactIff | packages/server/src/change-log.ts:84-90 | The changes left in a pruned log bring a key to the value at the head exactly if nobody touched it since the position, or somebody did in what is left. |
| ConvergenceExact.CrashInRunIff | packages/core/src/sync-engine.ts:434-495 | In every run: a cycle that crashes after n durable writes leaves a key off the value at the stored cursor exactly if n is one, the data without the cursor, and somebody touched the key between the two positions. |
| ConvergenceLimits.FilteredSnapshotLosesKey | packages/core/src/sync-engine.ts:315-329 | An instance: the cursor moves past a key that was left out and touched. |
| ConvergenceLimits.LoweredMinimumLosesKey | packages/server/src/change-log.ts:115-121 | An instance: a lowered minimum admits a cursor, and the key was touched only in what is gone. |
| ConvergenceLimits.CrashTearsReplica | packages/core/src/sync-engine.ts:260-261 | An instance: changes and cursor are not persisted atomically. |
| Conservation.NothingIsLost | packages/core/src/mutation-queue.ts:137-402 | Over any run no mutation disappears or changes id, entity, collection, sequence or field, the queue grows by exactly the local writes, and the status counts add up to it. |
| Conservation.AcknowledgedMeansApplied | packages/core/src/sync-engine.ts:263-267 | Over any run, with any prunings, what the client has marked ACKNOWLEDGED was applied by the server. |
| Conservation.OnlyPendingMoves | packages/core/src/mutation-queue.ts:292-309 | Between cycles only a pending mutation ever changes; an IN_FLIGHT one, as `retry` leaves it, waits for a recovery. |
| Conservation.TooOldStrandsBatch | packages/core/src/sync-engine.ts:244-253 | A cursor that is too old leaves exactly the batch IN_FLIGHT, one retry further and without an error. |
| Conservation.TooOldFallsBack | packages/core/src/sync-engine.ts:244-253 | The round then completes exactly if all the server's entities are valid, and leaves them over the replica with the cursor at the head. |
| Collections.SequenceTracker.Next | packages/core/src/mutation-recorder.ts:39-44 | One more than the collection's last number. |
| Collections.SequenceTracker.Initialize | packages/core/src/mutation-recorder.ts:63-68 | The maximum of what was known and what is stored; other collections untouched. |
| Collections.Collection.AtomicWrite | packages/core/src/collection.ts:477-523 | Entity and mutation are stored together or not at all, wherever the transaction breaks off; the number is used up either way. |
| Collections.Collection.Create | packages/core/src/collection.ts:268-294 | Revision 1, and only if the id is new. |
| Collections.Collection.Put | packages/core/src/collection.ts:307-328 | Replaces the entity as given. |
| Collections.Collection.Update | packages/core/src/collection.ts:341-359 | Every field that the update names holds its value and every other field the old one, one revision further, with creation time and flag kept; a missing entity throws and uses no number. |
| Collections.Collection.Delete | packages/core/src/collection.ts:374-393 | The flag is set, data and creation time stay, one revision further; a missing entity throws. |
| LocalWrites.SequencesIncrease | packages/core/src/mutation-recorder.ts:39-68 | Across failed writes and restarts that read the last number back, a collection's stored sequences are distinct and increase in commit order. |
| LocalWrites.RestartNumbers | packages/core/src/mutation-recorder.ts:63-68 | After a restart a collection goes on from its highest stored number if that was read back, and from zero if not. |
| LocalWrites.CommitReplaysIff | packages/core/src/mutation-recorder.ts:39-44 | After a commit on a key, replaying by sequence gives its new data exactly if no mutation of the key is numbered above the number handed out, or replay ended on that data already; other keys replay as before. |
| LocalWrites.ReplaysThroughoutIff | packages/core/src/collection.ts:477-541 | Over any run of writes, failures and restarts, replay gives a key's data at every moment exactly if every commit on it was in order: numbered not below an earlier one of the key, or changing no data. |
| LocalWrites.ReplayEndsIff | packages/core/src/mutation-queue.ts:370-379 | At the end of a run, read off the stored mutations alone: exactly if none of the key is numbered above its last one, or those before end on the same value. |
| LocalWrites.LocalWritesReplay | packages/core/src/collection.ts:477-541 | So for every run whose restarts read the numbers back: stored mutations number exactly the committed writes, and replaying them by sequence rebuilds every entity's data, at every moment. |
| LocalWrites.UnseededCommitIff | packages/core/src/mutation-recorder.ts:277-282 | The first commit after a restart that did not read the numbers back is harmless exactly if the key's stored mutations are not numbered above one, or it changes no data. |
| LocalWrites.FailedWriteLeavesGap | packages/core/src/collection.ts:488-491 | A write that commits after a failed one leaves a gap. |
| LocalWrites.UnseededRestartBreaksReplay | packages/core/src/mutation-recorder.ts:277-282 | An instance: two writes, such a restart, and a third write with other data than the second. |
| Integrity.ReportCounts | packages/core/src/integrity-checker.ts:181-232 | Critical issues number mutations minus distinct numbers, gap issues maximal runs minus one per collection. |
| Integrity.HealthyIff | packages/core/src/integrity-checker.ts:181-232 | Nothing is reported exactly if every collection's sequences are distinct and form an interval. |
| Integrity.GapReportedIff | packages/core/src/integrity-checker.ts:181-232 | A gap is reported with its bounds exactly if nothing is stored from the expected number up to the found one and something is on either side. |
| Integrity.RepetitionReported | packages/core/src/integrity-checker.ts:181-232 | A repetition names a stored mutation and the number it repeats. |
| Integrity.CollectionsInOrder | packages/core/src/integrity-checker.ts:184-193 | The report goes through the collections in the order in which they first appear. |
| IntegrityChecker.Checker.GroupByCollection | packages/core/src/integrity-checker.ts:184-193 | Groups in order of first appearance, each the collection's mutations in order. |
| IntegrityChecker.Checker.CheckSequenceMonotonicity | packages/core/src/integrity-checker.ts:181-232 | The loops report exactly that. |
| IntegrityChecker.Checker.CheckSequenceIntegrity | packages/core/src/recovery-manager.ts:190-230 | Recovery warns about exactly the gaps, so not about repetitions. |
| IntegrityChecker.Checker.BuildSummary | packages/core/src/integrity-checker.ts:396-420 | The four counts are those of the severities and add up. |
| WriteReports.GapsAreFailedWrites | packages/core/src/integrity-checker.ts:181-232 | On a client that only writes locally there is no critical issue, and one gap for every commit whose collection had used up numbers on failed writes. |
| SchedulerSpec.SingleFlight | packages/core/src/sync-scheduler.ts:217-299 | In every order of events at most one timer is armed and one cycle in flight, and the interval is the base or the capped power of the multiplier. |
| SchedulerSpec.LiveUntilStopped | packages/core/src/sync-scheduler.ts:148-166 | From a start until a stop or a disposal a timer or a cycle is live. |
| SchedulerSpec.NothingAfterDispose | packages/core/src/sync-scheduler.ts:188-191 | After a disposal no cycle and no timer is started. |
| SchedulerSpec.TriggersCoalesce | packages/core/src/sync-scheduler.ts:174-181 | However often it is triggered during a cycle, exactly one more starts, when the cycle finishes. |
| SchedulerSpec.StopIsQuietIff | packages/core/src/sync-scheduler.ts:163-166 | After a stop no cycle starts of itself, by timer, by a finishing cycle or by connectivity, exactly if none was in flight and no listener has leaked. |
| SchedulerSpec.RepeatedStartsLeak | packages/core/src/sync-scheduler.ts:345-366 | In every run each start that finds the scheduler listening leaks one listener, and nothing else does. |
| SchedulerSpec.StopIsFinalIff | packages/core/src/sync-scheduler.ts:148-166 | So after any run a stop is final exactly if no cycle is in flight and the application never started it twice without a stop in between. |
| SchedulerSpec.SecondStartLeaks | packages/core/src/sync-scheduler.ts:345-366 | An instance: start, start, stop. |
| SchedulerSpec.BackoffGrows | packages/core/src/sync-scheduler.ts:282-292 | One more failure never shortens the interval, unless it is the first and the base exceeds the maximum. |
| SchedulerSpec.IntervalFollowsFailures | packages/core/src/sync-scheduler.ts:268-295 | After every run the interval is the one for the retryable failures since the last success. |
| SyncScheduler.SyncScheduler.Start | packages/core/src/sync-scheduler.ts:148-155 | Registers a listener, replaces the timer, and throws after a disposal. |
| SyncScheduler.SyncScheduler.Stop | packages/core/src/sync-scheduler.ts:163-166 | The timer is gone from the surroundings too, and the latest listener; a cycle in flight is left alone. |
| SyncScheduler.SyncScheduler.TriggerSync | packages/core/src/sync-scheduler.ts:174-181 | During a cycle it is remembered, otherwise the timer gives way to a cycle at once. |
| SyncScheduler.SyncScheduler.Dispose | packages/core/src/sync-scheduler.ts:188-191 | Stops, and marks the scheduler as finished. |
| SyncScheduler.SyncScheduler.ComeOnline | packages/core/src/sync-scheduler.ts:345-356 | Every registered listener triggers once. |
| SyncScheduler.SyncScheduler.Fire | packages/core/src/sync-scheduler.ts:222-225 | A timer that goes off starts a cycle unless one is in flight. |
| SyncScheduler.SyncScheduler.Finish | packages/core/src/sync-scheduler.ts:247-262 | A finished cycle updates the backoff, for success and both kinds of failure, and then starts the remembered cycle or arms the next timer. |
| TransportLaws.RequestsSettleOnce | packages/transport-websocket/src/ws-transport.ts:589-627 | In every order of events the accepted requests are the disjoint union of pending and settled ones, each is settled once, and the live request timers are those of the pending requests. |
| TransportLaws.EveryRun | packages/transport-websocket/src/ws-transport.ts:454-545 | In every run there is one connection at most, no timer is armed that the transport does not know, and reconnection keeps its bound and its delays. |
| TransportEffects.SettledByCause | packages/transport-websocket/src/ws-transport.ts:589-732 | In every run a promise was resolved exactly if its response came while it was pending, and rejected for a reason exactly if the event for that reason did: an error about it or about none, its own timeout, a disconnection. |
| TransportEffects.ReconnectionArmedIff | packages/transport-websocket/src/ws-transport.ts:490-540 | A reconnection is armed exactly if the connection is lost unintentionally and an attempt is left; attempts are counted from the last opening and decide the delay. |
| TransportEffects.DelayMultiplies | packages/transport-websocket/src/ws-transport.ts:535-540 | Each further attempt waits the multiple of the one before, up to the maximum. |
| TransportLaws.DisconnectSettlesAll | packages/transport-websocket/src/ws-transport.ts:302-312 | A disconnection settles everything pending and leaves no timer and no socket. |
| TransportLaws.DisposedForGood | packages/transport-websocket/src/ws-transport.ts:319-325 | After a disposal nothing is accepted, settled, armed or opened. |
| TransportLaws.StaleRecoversIff | packages/transport-websocket/src/ws-transport.ts:665-680 | After a missing pong the transport will ever accept a request again, short of the client disconnecting, exactly if closing the socket delivers its close event at once. |
| TransportLaws.StaleForGood | packages/transport-websocket/src/ws-transport.ts:273-294 | Otherwise the transport stays connected in name and accepts nothing until the client disconnects. |
| WsTransport.WebSocketSyncTransport.Connect | packages/transport-websocket/src/ws-transport.ts:273-294 | Cancels a scheduled reconnection and opens a socket unless connected or connecting; throws after a disposal. |
| WsTransport.WebSocketSyncTransport.Disconnect | packages/transport-websocket/src/ws-transport.ts:302-312 | All timers are cleared, all pending requests rejected, the socket let go of. |
| WsTransport.WebSocketSyncTransport.Dispose | packages/transport-websocket/src/ws-transport.ts:319-325 | Disconnects for good. |
| WsTransport.WebSocketSyncTransport.Request | packages/transport-websocket/src/ws-transport.ts:703-732 | Accepted exactly if the socket is open. |
| WsTransport.WebSocketSyncTransport.OnOpen | packages/transport-websocket/src/ws-transport.ts:484-488 | Connected, with a fresh heartbeat, and the reconnection attempts start over. |
| WsTransport.WebSocketSyncTransport.CloseEvent | packages/transport-websocket/src/ws-transport.ts:490-503 | An intended close ends disconnected, any other schedules a reconnection or gives up; pending requests stay pending. |
| WsTransport.WebSocketSyncTransport.OnMessage | packages/transport-websocket/src/ws-transport.ts:553-587 | A response resolves its request, an error rejects its request or, if it is about none, all of them; anything unknown is ignored. |
| WsTransport.WebSocketSyncTransport.Fire | packages/transport-websocket/src/ws-transport.ts:665-680 | A request times out, a ping goes out, a missing pong closes the socket, or a reconnection opens one. |
| WsTransport.WebSocketSyncTransport.RejectAllPending | packages/transport-websocket/src/ws-transport.ts:783-789 | Every pending request is rejected, in order, and its timer cleared. |
| QueryLaws.BindingIsPositional | packages/storage-sqlite/src/sqlite-adapter.ts:172-182 | Whatever the definition, as many values are bound as there are placeholders, each at its own. |
| QueryAgreement.EqAgreesIff | packages/storage-sqlite/src/query-translator.ts:80-83 | `eq` on a missing or scalar field: clause and operator agree unless both sides are null, or one is a boolean and the other its number. |
| QueryAgreement.NeqAgreesIff | packages/storage-sqlite/src/query-translator.ts:80-83 | `neq`: exactly if both are null, or the field is there, neither is null and they are no such pair. |
| QueryAgreement.OrderAgreesIff | packages/storage-sqlite/src/query-translator.ts:80-83 | `gt`, `gte`, `lt`, `lte`: always on a missing field and between values of like type; with a null, if the comparison with zero is false; with text on one side, if the numeric comparison puts the text on top. |
| QueryAgreement.InAgreesIff | packages/storage-sqlite/src/query-translator.ts:63-75 | `in`: unless a null is looked for and listed, or a value is not listed and its boolean or numeric counterpart is. |
| QueryAgreement.LikeContains | packages/storage-sqlite/src/query-translator.ts:76-79 | Between two `%` a text without wildcards matches exactly what contains it, letter case aside. |
| QueryAgreement.ContainsImpliesLike | packages/storage-sqlite/src/query-translator.ts:76-79 | `contains` on text never finds what LIKE does not, wildcards or not. |
| QueryAgreement.ContainsAgreesIff | packages/storage-sqlite/src/query-translator.ts:76-79 | `contains` on text, without wildcards: unless only the letter case differs. |
| QueryAgreement.MetadataAgreesIff | packages/storage-sqlite/src/query-translator.ts:112-119 | A metadata field: exactly if the column and the data field of that name compare alike. |
| QueryAgreement.MetadataRepeatedIff | packages/storage-sqlite/src/query-translator.ts:112-119 | On `eq` with every target exactly if the data repeats the metadata. |
| QueryAgreement.FilterAgreesIff | packages/storage/tests/in-memory-storage-adapter.ts:137-162 | All operators together: clause and operator agree on a row exactly under the operator's condition. |
| QueryLaws.SelectionAgrees | packages/storage-sqlite/src/query-translator.ts:44-85 | If every clause agrees with its operator on every row, the statement selects exactly the rows that the reference store keeps. |
| QueryLaws.OneFilterAgreesIff | packages/storage-sqlite/src/query-translator.ts:44-85 | With one filter, exactly if it does on the rows that are not deleted. |
| QueryLaws.FragmentNeverThrows | packages/storage/tests/in-memory-storage-adapter.ts:93-135 | And then evaluation in memory does not throw. |
| QueryLaws.WindowsAgree | packages/storage-sqlite/src/query-translator.ts:94-103 | With bounds that are not negative the windows agree. |
| QueryLaws.TranslationAgrees | packages/storage/tests/in-memory-storage-adapter.ts:93-135 | With a sort that tells the rows apart the statement has exactly one answer, that of the reference store. |
| QueryLaws.UnsortedAgrees | packages/storage/tests/in-memory-storage-adapter.ts:93-135 | Without sort and window its answers are the orderings of the reference store's rows. |
| QueryValues.StringLessIff | packages/storage/tests/in-memory-storage-adapter.ts:142-154 | The order of texts decides at the first place where they differ. |
| QueryValues.SubstringIff | packages/storage/tests/in-memory-storage-adapter.ts:157-158 | `contains` on text finds a part at some place. |
| QueryValues.NumberReadBack | packages/storage-sqlite/src/query-translator.ts:74-76 | A number written out, with blanks around it, is read back as that number. |
| QueryValues.LikePlain | packages/storage-sqlite/src/query-translator.ts:74-76 | A pattern without `%` matches what is alike character by character, where `_` is alike to anything and ASCII letter case does not count. |
| QueryValues.SegmentsJoin | packages/storage-sqlite/src/query-translator.ts:112-119 | The path of a field name has its parts between the dots, and joined they are the name. |
| QueryValues.DottedColumn | packages/storage-sqlite/src/query-translator.ts:112-119 | So in SQL a name with a dot looks into the record that its first part names, where in memory it is the name of one field. |
| QueryValues.SortMissingLast | packages/storage/tests/in-memory-storage-adapter.ts:110-122 | In memory rows without a value come last in either direction. |
| QueryValues.OneFilterThrowsIff | packages/storage/tests/in-memory-storage-adapter.ts:93-135 | With one filter evaluation throws exactly if a row that is not deleted has null data or cannot answer `contains`. |
| QueryValues.SortThrowsIff | packages/storage/tests/in-memory-storage-adapter.ts:110-122 | A sort throws exactly if there are two rows to compare and one has null data. |
| QueryValues.AgainstNumber | packages/storage/tests/in-memory-storage-adapter.ts:147-154 | Against a number null counts as zero, a boolean as zero or one, a written number as itself; what is missing is neither less nor more. |
| QueryValues.NullsFirst | packages/storage-sqlite/src/query-translator.ts:86-90 | In SQL what has no value comes first if ascending and last if descending, other than in memory. |
| QueryValues.TextOfArray | packages/storage-sqlite/src/query-translator.ts:74-76 | In a LIKE pattern an array becomes its items with commas between them. |
| QueryTranslator.TranslateQuery | packages/storage-sqlite/src/query-translator.ts:44-106 | The loop pushes clauses and parameters in step. |
| QueryTranslator.FilterEntities | packages/storage/tests/in-memory-storage-adapter.ts:93-135 | One filter after the other keeps the rows that pass all, then sort and window; None exactly if data is null where it is looked into or `contains` meets neither text nor array. |

## Left out

- Draining and round trips assume one writer, a resolver that always answers, pending mutations addressed to entities the server has, and at most one key per entity id among what is pending, because base revisions are looked up by id alone. `ResponseValidIff` and `CreateBlocksForever` say what happens without the second-last assumption.
- Convergence speaks of keys without any mutation in the queue, of prunings that do not lower the minimum below what is gone, and of snapshots that include the key's collection; `ConvergenceExact` says of a single pruning or snapshot exactly what happens without the last two.
- NothingIsLost: assumes that new mutations bring ids of their own, as the id generator is meant to guarantee.
- The entity's id inside the entity record, which the protocol repeats: here it lives in the key alone. Collections within collections of maps are one map from (collection, id).
- One request, and one uninterrupted round, uses one clock value; clocks, ISO 8601 parsing and JSON text are opaque stamps and documents.
- The reads of a cycle (cursor, batch, base revisions) are one step; local writes may fall before or after it, and between any two durable writes.
- Storage transactions are atomic; half-written storage files and SQLite's own recovery are outside.
- Numbers are integers: revisions, cursors, increments, delays. An increment by something that is not a number counts as zero, where JavaScript would concatenate.
- Identity of objects: `===` and `includes` compare objects and arrays by identity, and two documents never share one here.
- A custom resolver that answers with undefined data; a resolver that throws.
- The stored record around a mutation (its own revision and updatedAt).
- The reserved collections for mutations and the cursor are fields of the storage, and storage lists mutations in the order in which they were first stored.
- Change events, conflict callbacks, connection listeners and pushed changes: notifications without state of their own; callbacks that call back into the object are not modelled.
- `seedEntity`, which can reset revisions.
- The engine's ERROR state, which asynchronous failures bypass.
- SyncServer.SyncServer.HandleSnapshotRequest: does not model the empty lists that the response carries for requested collections the server lacks, nor its timestamp; they reach no entity and no cursor.
- The checkers' remaining checks (missing fields, orphans, revision types) and the texts of their messages: one condition per record.
- The closing handshake of a socket (readyState 2), a socket factory that throws, and the contents of responses: correlation only.
- The text of the SQL statement: clauses are terms, joined by conjunction; path syntax other than dots, quoting, and the text that `json_extract` makes of arrays and objects are not modelled.
- Strings compare by code point in both stores; surrogate pairs are not modelled. In a comparison of text with a number only integer texts are numbers: fractions, exponents and hexadecimal count as not numeric. Arrays and objects in order comparisons, and `in` with a target that is no array, are not modelled.
- HTTP transport, version negotiation, error classification, `MutationSender`, discovery and lifecycle managers, user interface packages, Electron: thin or foreign.
