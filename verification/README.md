# Capacity, projection and saga bookkeeping of Graphiti's Neptune driver

This project models three pieces of Graphiti and proves what they are for.

**Bounded capacity** (`graphiti_core/async_limiter.py` and its users). `AsyncCapacityLimiter` shares a fixed number of
slots between tasks of several event loops and hands a slot directly from a releaser to the longest waiting task;
`AsyncCapacityLease` gives one slot back once, and only after the worker futures it holds have finished.

- `Futures`, `LimiterCore`, `LeaseCore`: the state and the effect of every critical section.
- `AsyncLimiter`: the classes themselves; each method is proved to have exactly that effect.
- `LimiterProtocol`: any number of calls, tasks, leases and workers. Every action is one critical section or one thing
  that can happen between two of them. `LimiterSafety` has the invariant, `LimiterTheorems` what it means for callers,
  `LimiterLiveness` draining and progress, `LimiterRefinement` the refinement of a textbook FIFO semaphore.
- `ExecutorBound`: the mutation, search and similarity clients and their worker threads; `ExecutorLiveness`: every one of
  them gives its slot back.

**Versioned projection** (`neptune_driver.py`, `nodes.py`, `edges.py`, `projection_versions.py`). OpenSearch holds a
derived copy of the graph. A write is accepted by version only, so it may be lost, repeated or reordered.

- `VersionedStore`, `EpisodeText`: the store, convergence and finality, for vectors and for episode text.
- `VectorWrites`, `SearchPages`: versions, bulk answers and errors, and the contract of a sorted, paged search.
- `VectorIndex`: saving, tombstoning by id, tombstoning by query, hard deletion by query, over a network that may lose,
  repeat or leave unanswered any action. `VectorWellFormed`: what the stored documents always look like.
  `VectorHistories`: finality and convergence of whole histories of operations.
- `ProjectionLifecycle`: commits, deliveries, acknowledgements, repairs and deletions of each uuid in any interleaving.

**Sagas and bulk ingestion** (`graphiti.py`, `bulk_utils.py`).

- `SagaChain`, `SagaIngestion`: the HAS_EPISODE and NEXT_EPISODE edges over runs of single and bulk ingestion.
- `SagaSummary`: the two watermarks of incremental summaries.
- `BulkDedupe`: first-occurrence sharing of nodes and edges, and in-place rewriting of edge endpoints.
- `DirectedUuidMap`: the union-find that collapses alias pairs.

Six properties do not hold of the code without a condition. Each condition is proved exact and comes with an input
that fails it.

- *A summary leaves no linked episode out.* Over a run, whatever watermarks are saved, this holds if and only if every
  ingestion links in time and every summary finds each pending episode unseen, with content, and with fewer than 200 rows of
  others that may come before it in the query (`SagaSummary.EverySummaryCoversAllIff`). Linking in time means that each
  episode not yet summarized was created after the `last_summarized_at` that is saved with it. The query returns one row
  per link, so linking an episode twice can cut another one off (`SagaSummary.FirstEpisodesReachTheLimit`). An
  episode that already exists and is linked by its uuid keeps its old creation time and can come too late
  (`SagaSummary.ExistingEpisodeIsMissed`); an empty one is passed over (`SagaSummary.EmptyEpisodeIsPassedOver`). What is passed over
  stays out of reach if and only if no later ingestion sets the filter back (`SagaSummary.LostForeverIff`), although the
  comment at `graphiti_core/graphiti.py:463` speaks of backfilled episodes being picked up.
- *The reference-time watermark never goes back.* It holds if and only if no ingestion saves a saga node with an older
  watermark than the stored one (`SagaSummary.WatermarkNeverDecreasesIff`); a node fetched before a summary does
  (`SagaSummary.StaleNodeLowersWatermark`).
- *The chain stays one path.* Where the predecessor is looked up it holds if and only if before each call the episode
  linked last is strictly later than every other one (`SagaChain.LookedUpRunsStayPathsIff`). An out-of-order episode still
  joins at the end; it is the next call that branches off (`SagaChain.OutOfOrderBranchesAtTheNextCall`). Where it is supplied
  it must be the last one (`SagaChain.LinkKeepsPathIffAtEnd`, `SagaChain.SuppliedPredecessorMayBranch`).
- *Paging shows every document.* Searches sort by the `uuid` field. Pages of one size show every document if and only if
  no group of equal uuids straddles a page end (`SearchPages.PagingBySizeIsCompleteIff`), and pages of any size if and only if
  no two documents in scope share a uuid (`SearchPages.PagingIsCompleteIff`, `SearchPages.SharedUuidIsSkipped`). In an index that
  only saves and deletions have written, every document lies under its own uuid (`VectorWellFormed.ReachableIndexIsAligned`).
- *Rewriting edge endpoints is idempotent.* Edge objects listed under several episodes are rewritten several times, which
  is harmless if and only if the map is settled (`BulkDedupe.RepeatedRewritingIsHarmlessIffSettled`,
  `BulkDedupe.UnsettledMapMovesTwice`). The map of that loop is merged from the resolvers' maps, and it is settled if and only
  if every resolver that was asked about a target keeps it (`BulkDedupe.MergedIsSettledIff`). The map that bulk ingestion
  applies before deduplicating edges is built from alias pairs and always settled (`DirectedUuidMap.DirectedMapIsSettled`).
- *Alias pairs keep their direction.* What is no alias stays canonical if and only if no pair takes it away
  (`DirectedUuidMap.DirectionKeptIff`); a uuid resolved to two others in turn does (`DirectedUuidMap.AliasResolvedTwice`), although
  the docstring at `graphiti_core/utils/bulk_utils.py:83-88` promises the ultimate canonical target.

Parameters stand for what the model cannot see: what the network does with each action, what a search still shows of
earlier writes, which worker finishes when, the wall clock, and what an LLM call returned.

## Model

| member | source | states |
|---|---|---|
| `LimiterCore.ReleaseClosedForm` | graphiti_core/async_limiter.py:167-177 | one release notifies exactly the cancelled waiters ahead of the first one still waiting, grants that one, and only if there is none restores the slot or raises; everybody else is untouched |
| `AsyncLimiter.AsyncCapacityLimiter.Create` | graphiti_core/async_limiter.py:125-136 | construction fails exactly for a capacity below 1 or a negative waiter bound; the default bound is 16 waiters per slot; every slot starts free |
| `AsyncLimiter.AsyncCapacityLimiter.EnterAcquire` | graphiti_core/async_limiter.py:139-150 | a caller takes a slot iff one is free, is refused iff none is and the queue is full, and otherwise joins the end of the queue with a new pending waiter; nothing else changes |
| `AsyncLimiter.AsyncCapacityLimiter.ChainedCancel` | graphiti_core/async_limiter.py:152-153 | cancelling the wrapper cancels a pending waiter in place, without dequeuing it, and leaves a granted one alone |
| `AsyncLimiter.AsyncCapacityLimiter.LeaveAcquire` | graphiti_core/async_limiter.py:154-163 | a cancelled call leaves the queue, or learns that it was granted a slot it must return; no other waiter changes |
| `AsyncLimiter.AsyncCapacityLimiter.OfferToFirst` | graphiti_core/async_limiter.py:169-173 | the head of the queue is removed and either granted, if pending, or marked notified |
| `AsyncLimiter.AsyncCapacityLimiter.Release` | graphiti_core/async_limiter.py:167-177 | the loop has exactly the effect of the specification of one release, and raises exactly when that says too many |
| `LeaseCore.FinishHold` | graphiti_core/async_limiter.py:70-81 | a consistent lease stays consistent, and the slot is returned by the very step that marks it released |
| `LeaseCore.RequestRelease` | graphiti_core/async_limiter.py:83-94 | the same for a request: a repeated one never returns the slot again |
| `AsyncLimiter.AsyncCapacityLease.HoldUntilComplete` | graphiti_core/async_limiter.py:57-62 | one more hold is counted unless release was requested, and then it raises and nothing changes |
| `AsyncLimiter.AsyncCapacityLease.FinishHold` | graphiti_core/async_limiter.py:70-81 | the last hold of a lease whose release was requested marks it released and runs the limiter's release once; otherwise the limiter is untouched |
| `AsyncLimiter.AsyncCapacityLease.Release` | graphiti_core/async_limiter.py:83-94 | the first request releases at once if nothing is held, else defers; later requests change nothing |
| `LimiterTheorems.StepKeeps` | graphiti_core/async_limiter.py:57-177 | every step of every interleaving keeps the queue, lease, order and conservation invariants |
| `LimiterTheorems.CapacityIsConserved` | graphiti_core/async_limiter.py:138-177 | in every reachable state free slots, unreleased leases, unobserved grants and returns in flight add up to the capacity; no accounting error is ever raised; the queue respects its bound |
| `LimiterSafety.ReturnSlotNeverOverflows` | graphiti_core/async_limiter.py:175-177 | whenever a slot is on its way back there is room for it, so "released too many times" cannot be raised |
| `LimiterTheorems.GrantsFollowArrival` | graphiti_core/async_limiter.py:140-177 | granted tickets are strictly increasing, no free slot coexists with a queue, nobody overtakes a waiter, and any earlier ticket without a grant was refused or cancelled |
| `LimiterTheorems.LeaseReleasedExactlyWhenDue` | graphiti_core/async_limiter.py:57-94 | a lease is released iff release was requested and every hold has completed, hence never while a held worker is unfinished |
| `LimiterTheorems.NoHoldAfterRelease` | graphiti_core/async_limiter.py:57-62 | over every run, once release of a lease is requested it takes no further hold and the request stands |
| `LimiterTheorems.SlotReturnedAtMostOnce` | graphiti_core/async_limiter.py:57-94 | from any invariant state, the number of returns of a slot is what the lease state records, hence at most one |
| `LimiterTheorems.OneReturnPerAcquire` | graphiti_core/async_limiter.py:138-177 | over a whole run each acquire's slot is returned exactly once if it is back and not at all otherwise |
| `LimiterTheorems.RejectedIffFull` | graphiti_core/async_limiter.py:140-144 | over every run, an acquire ends up refused iff it arrived with no free slot and a full queue |
| `LimiterTheorems.CancelledWaiterLeaves` | graphiti_core/async_limiter.py:151-163 | a waiting task can be cancelled at any time, with or without the chained cancellation; it leaves the queue at once, nobody else notices, and a slot it was granted is on its way back |
| `LimiterTheorems.HoldTakenIffNotRequested` | graphiti_core/async_limiter.py:57-62 | a lease takes any further hold iff its release has not been requested |
| `LimiterTheorems.HoldEndsWithItsWorker` | graphiti_core/async_limiter.py:70-78 | a held worker may finish and its callback fire at any time, which ends that hold and no other |
| `LimiterLiveness.DrainStepDecreases` | graphiti_core/async_limiter.py:57-177 | every step that brings in no new work lowers a measure of the state |
| `LimiterLiveness.DrainingIsBounded` | graphiti_core/async_limiter.py:57-177 | every sequence of such steps ends, within that measure |
| `LimiterLiveness.StuckOnlyWhenDrained` | graphiti_core/async_limiter.py:57-177 | no step but a cancellation is left iff the queue is empty, every slot is free and every lease returned: no wake-up is lost |
| `LimiterLiveness.DrainableWithoutCancelling` | graphiti_core/async_limiter.py:57-177 | from every reachable state the work drains without cancelling anyone |
| `LimiterLiveness.WaiterServedWithinItsPosition` | graphiti_core/async_limiter.py:167-173 | the waiter at position k has left the queue, granted or cancelled, after k + 1 releases |
| `LimiterRefinement.StepRefines` | graphiti_core/async_limiter.py:138-177 | each critical section is one event of a FIFO semaphore whose queue is the pending waiters only, or no event at all |
| `LimiterRefinement.RunRefines` | graphiti_core/async_limiter.py:138-177 | every run of the limiter is a run of that semaphore, serving the same callers in the same order |
| `LimiterRefinement.InterruptedReleaseIsAtomic` | graphiti_core/async_limiter.py:168-177 | cancellations that strike waiters between turns of the release loop, without the lock, might as well have come before it |
| `ExecutorBound.MoveIsStep` | graphiti_core/driver/neptune_driver.py:911-980 | every move of a client is one enabled step of the limiter or none at all |
| `ExecutorBound.MoveKeeps` | graphiti_core/driver/neptune_driver.py:911-980 | every move of the three kinds of client keeps the limiter's invariants and ties each worker to the lease that covers it |
| `ExecutorBound.BusyClientOwnsSlot` | graphiti_core/driver/neptune_driver.py:113-121 | a client with an unfinished worker still owns its slot, in the hold-based and in the detached protocol and for every query of a pipeline, cancelled or not |
| `ExecutorBound.WorkersNeverExceedCapacity` | graphiti_core/driver/neptune_driver.py:652-669 | over every run, clients with unfinished workers never outnumber the slots and the queue never exceeds its bound |
| `ExecutorBound.AossPoolsHaveNoBacklog` | graphiti_core/driver/neptune_driver.py:72-101 | as configured, the search and the mutation executor never have more than two unfinished jobs, the number of their threads, nor more than 32 callers waiting |
| `ExecutorLiveness.AdmissionOutcome` | graphiti_core/driver/neptune_driver.py:916 | any kind of client may ask at any time; it gets a slot iff one is free and is refused iff none is and the queue is full |
| `ExecutorLiveness.WaitingClientMayLeave` | graphiti_core/driver/neptune_driver.py:951 | a client that waits for its slot may be cancelled, and is then out of the queue or returns what it was granted |
| `ExecutorLiveness.SettlingIsBounded` | graphiti_core/driver/neptune_driver.py:911-980 | every sequence of client moves that brings in no work and cancels nothing ends, within a measure of the pool |
| `ExecutorLiveness.StuckOnlyWhenSlotsAreBack` | graphiti_core/driver/neptune_driver.py:113-121 | after every run of the three protocols, cancellations and failed submissions included, no client has a move left iff nobody waits and every slot is free: no slot is leaked |
| `ExecutorLiveness.EveryRunSettles` | graphiti_core/driver/neptune_driver.py:911-980 | after every run some further moves, without new work or cancellations, leave no unfinished worker, an empty queue and every slot free |
| `ExecutorLiveness.FailedSubmissionReturnsSlot` | graphiti_core/driver/neptune_driver.py:917-922 | a client whose submission fails gives its slot back |
| `ExecutorLiveness.CancelledSearchReturnsSlot` | graphiti_core/driver/neptune_driver.py:968-974 | a search cancelled while its worker runs keeps its slot until the worker has finished, and then gives it back |
| `ExecutorLiveness.CancelledMutationReturnsSlot` | graphiti_core/driver/neptune_driver.py:918-937 | a mutation that requested release and was cancelled keeps its slot until its worker has finished, whose callback gives it back |
| `ExecutorLiveness.PipelineHoldsEveryQuery` | graphiti_core/driver/neptune_driver.py:652-669 | a pipeline may launch any number of queries before release is requested, and its lease holds each one |
| `ExecutorLiveness.LaunchedPipelineOwnsSlot` | graphiti_core/driver/neptune_driver.py:652-669 | with a query running the pipeline still owns its slot |
| `VersionedStore.HighestVersionWins` | graphiti_core/driver/neptune_driver.py:1140-1158 | after any deliveries an id holds a document of the highest version ever sent or stored for it, and that one was really sent or stored |
| `VersionedStore.ConvergesIffWinnersAgree` | graphiti_core/driver/neptune_driver.py:1151-1153 | strict writes leave the same index under every reordering and duplication iff the writes that could win for an id agree on the document |
| `VersionedStore.GenerationsConverge` | graphiti_core/driver/neptune_driver.py:227-235 | when one generation means one content, any two deliveries of the same writes leave the same index, the highest generation per id |
| `VersionedStore.FinalIffNothingNewer` | graphiti_core/driver/neptune_driver.py:1151-1157 | a stored tombstone survives strict writes iff none of them is newer; an equal-generation replay changes nothing |
| `EpisodeText.DeafIffTombstoned` | graphiti_core/helpers.py:41-45 | ordinary episode saves never change a stored document iff it is at the tombstone version; otherwise the next save replaces it |
| `VectorWrites.ExternalVersion` | graphiti_core/driver/neptune_driver.py:321-328 | exactly the generations below 10^15 get a version, in the range from 2*10^15 to 3*10^15, and the version determines the generation |
| `VectorWrites.ContainsIffOccurs` | graphiti_core/driver/neptune_driver.py:358 | the substring test on a textual error finds the marker iff it occurs somewhere |
| `VectorWrites.ConflictIsReportedIff` | graphiti_core/driver/neptune_driver.py:331-358 | an error counts as a version conflict iff its status is 409 and the engine's name for it occurs in a textual error or is the error's type or that of its cause |
| `VectorWrites.BulkCountsConfirmed` | graphiti_core/driver/neptune_driver.py:331-358 | successes plus recognised version conflicts count exactly the confirmed actions, whatever other writers do in between, so all are accounted for iff all were confirmed |
| `VectorWrites.BulkIsDurable` | graphiti_core/driver/neptune_driver.py:1095-1119 | a bulk request never lowers a version, and a confirmed action's id is stored at that version or above |
| `VectorIndex.AossIndex.CountConflicts` | graphiti_core/driver/neptune_driver.py:1106-1112 | the loop counts the version conflicts on versioned ids and nothing else |
| `VectorIndex.AossIndex.SaveToAoss` | graphiti_core/driver/neptune_driver.py:1057-1128 | one ill-dimensioned live document rejects the batch and leaves the index alone, a tombstone needs no embedding; otherwise the batch goes out as one bulk request and the result is the full count iff every action was confirmed |
| `VectorIndex.AossIndex.SaveVectorToAoss` | graphiti_core/driver/neptune_driver.py:1130-1165 | where every action is confirmed it returns iff every generation is usable and every embedding is missing or fits; then every document is stored at its version or above and, without other writers, exactly where it was newer, as a tombstone if it has no embedding; it raises for a generation iff one is unusable; no version is ever lowered |
| `VectorIndex.ConfirmedSave` | graphiti_core/driver/neptune_driver.py:1150-1159 | without other writers a confirmed save replaces what is older by a live vector or, without an embedding, by a tombstone, and touches nothing else |
| `VectorIndex.MarkerReplacesOlder` | graphiti_core/driver/neptune_driver.py:1373-1383 | a deletion marker replaces exactly what is older by a bare tombstone at its own generation |
| `VectorIndex.AossIndex.DeleteChunk` | graphiti_core/driver/neptune_driver.py:1365-1410 | one request sends exactly the tombstones of its ids and succeeds iff each has a generation and was confirmed |
| `VectorIndex.AossIndex.DeleteDocumentIds` | graphiti_core/driver/neptune_driver.py:1346-1411 | a return means every id is stored at its generation or above and, without other writers, tombstoned iff it was older, with nothing else touched; it raises only for a missing generation or a failing network |
| `VectorIndex.MarkersEntry` | graphiti_core/driver/neptune_driver.py:1373-1383 | a batch of tombstones acts on each of its ids as that id's own tombstone would, and on no other |
| `VectorIndex.AossIndex.Search` | graphiti_core/driver/neptune_driver.py:1252-1270 | a page is the first documents beyond the cursor in ascending order of their uuid field, as many as fit, ties in any order |
| `SearchPages.BeforeIsLexicographic` | graphiti_core/driver/neptune_driver.py:1250-1255 | sort values ascend character by character, a prefix first |
| `SearchPages.PageStaysBehind` | graphiti_core/driver/neptune_driver.py:1278-1285 | continuing after the uuid of the last hit never shows an earlier hit again and always moves the cursor up |
| `SearchPages.PageAdvances` | graphiti_core/driver/neptune_driver.py:1278-1285 | where uuids are distinct, continuing after the last hit skips exactly the hits of the page |
| `SearchPages.PagingIsCompleteIff` | graphiti_core/driver/neptune_driver.py:1250-1286 | paging shows every document, whatever the page size and the order of ties, iff no two share a uuid |
| `SearchPages.PagingBySizeIsCompleteIff` | graphiti_core/driver/neptune_driver.py:1250-1286 | pages of one size show every document, whatever the order of ties, iff no group of equal uuids straddles a page end |
| `SearchPages.SharedUuidIsSkipped` | graphiti_core/driver/neptune_driver.py:1280-1285 | of two documents with one uuid, a page of one shows the first and nothing lies beyond it |
| `SearchPages.ShortPageIsLast` | graphiti_core/driver/neptune_driver.py:1278-1279 | a page that is not full holds everything that was left |
| `VectorIndex.VisibleBeyond` | graphiti_core/driver/neptune_driver.py:1250-1261 | where documents lie under their own uuids, beyond the cursor the search sees exactly the untouched rest of the scope, however stale it is about ids already deleted |
| `VectorIndex.AossIndex.DeletePage` | graphiti_core/driver/neptune_driver.py:1251-1285 | one turn tombstones one page of the scope and nothing else and moves the cursor up through the sort values there are, or ends; where documents lie under their own uuids it passes exactly that page |
| `VectorIndex.AossIndex.DeleteQuery` | graphiti_core/driver/neptune_driver.py:1241-1286 | for every index, page size and visibility the loop terminates and leaves every document in scope as it was or a tombstone and all else untouched; where documents lie under their own uuids every one in scope has met its tombstone and is counted; it raises only for a reason |
| `VectorIndex.PurgeBulkRemoves` | graphiti_core/driver/neptune_driver.py:1315-1336 | a hard-delete request removes none but its ids, and all of them if no error is reported |
| `VectorIndex.PurgeBulkSmooth` | graphiti_core/driver/neptune_driver.py:1315-1336 | answered throughout, a hard-delete request reports no error |
| `VectorIndex.AossIndex.PurgeQuery` | graphiti_core/driver/neptune_driver.py:1288-1344 | the loop terminates and removes documents of the scope only; on return, where uuids in scope are distinct, exactly the scope is gone and counted; it raises only if a request went wrong |
| `VectorWellFormed.ReachableIndexIsWellFormed` | graphiti_core/driver/neptune_driver.py:1066-1092 | however saves and deletions interleave, fail or repeat, every document lies under its own uuid, is live with the right dimension or a bare tombstone, and has a version that decodes to one generation |
| `VectorWellFormed.ReachableIndexIsAligned` | graphiti_core/driver/neptune_driver.py:1373-1383 | so every scope of such an index has distinct uuids, each document under its own |
| `VectorHistories.HistoryIsDelivery` | graphiti_core/driver/neptune_driver.py:1095-1101 | whatever the network does, a history of saves and deletions leaves exactly what some sequence of deliveries leaves |
| `VectorHistories.SendsAreStrict` | graphiti_core/driver/neptune_driver.py:1151-1153 | every vector save and every tombstone goes out under strict external ordering |
| `VectorHistories.OutlivesOlderHistories` | graphiti_core/driver/neptune_driver.py:1151-1157 | a stored tombstone outlives every history of saves and deletions, retried, lost, repeated or interleaved, in which nobody sends a newer generation for its id |
| `VectorHistories.HistoriesConverge` | graphiti_core/driver/neptune_driver.py:227-235 | two histories that take the same writes, their own and those of other clients, and retry until their own got through leave the same index, however they batch and order them |
| `ProjectionLifecycle.StepKeeps` | graphiti_core/driver/neptune/projection_versions.py:110-192 | commits, deliveries, acknowledgements, clears, reservations and deletions in any order keep node, marker and index consistent |
| `ProjectionLifecycle.ReceiveIsStrictDelivery` | graphiti_core/driver/neptune_driver.py:1150-1153 | what one uuid sees of a delivery is the strict delivery of the whole index, and no other id changes |
| `ProjectionLifecycle.PendingMarkerIsSound` | graphiti_core/driver/neptune/projection_versions.py:153-192 | without a pending marker the index holds exactly the node's current generation and content; a marker always names the current generation |
| `ProjectionLifecycle.NoLiveVectorWithoutNode` | graphiti_core/driver/neptune/operations/entity_node_ops.py:294-338 | once the node is gone no live vector is left, and no late write can bring one back |
| `ProjectionLifecycle.CommitOutranksThePast` | graphiti_core/models/nodes/node_db_queries.py:226-257 | a new commit outranks all that was ever stored or sent for its uuid, also after a deletion |
| `ProjectionLifecycle.AllDeliveredMeansInSync` | graphiti_core/driver/neptune/operations/entity_node_ops.py:301-338 | once every issued write has arrived, in any order, a live vector exists iff the node is active and has an embedding, and it is the node's |
| `ProjectionLifecycle.ProjectionsAreTheDriversDocuments` | graphiti_core/nodes.py:833-855 | what a commit or a deletion projects is the document the driver sends: live with an embedding, a tombstone that keeps its group without one, a bare tombstone for a deletion |
| `ProjectionLifecycle.LifetimeKeepsGroupAndDeletion` | graphiti_core/models/nodes/node_db_queries.py:236-255 | as long as a node exists it stays in its group, its version never goes back and a prepared deletion is never undone |
| `ProjectionLifecycle.SaveSucceeds` | graphiti_core/models/nodes/node_db_queries.py:236-255 | after every run, content of a node's group, or any content for a new uuid, can be saved unless a deletion is under way, and ends up on the node, in the index and without a marker |
| `ProjectionLifecycle.DeleteSucceeds` | graphiti_core/driver/neptune/operations/entity_node_ops.py:294-338 | after every run any node can be deleted, also one whose deletion was begun before, and leaves only its tombstone |
| `ProjectionLifecycle.Entity.Save` | graphiti_core/nodes.py:817-864 | a save is turned away iff the node has another group or a pending deletion, and then leaves it untouched; one that returns leaves the index in sync and the marker cleared; any other leaves the marker on its own generation |
| `SagaChain.LinkKeepsTreeIff` | graphiti_core/graphiti.py:763-793 | a tree stays a tree iff the episode is new to the saga and its predecessor is linked |
| `SagaChain.LinkAllKeepsTreeIff` | graphiti_core/graphiti.py:1454-1490 | the same for a batch, which must also repeat nothing |
| `SagaChain.BatchEdgesAre` | graphiti_core/graphiti.py:1462-1483 | a batch adds one edge into each episode from the one before it, into the first only if there is a predecessor |
| `SagaChain.LinkKeepsPathIffAtEnd` | graphiti_core/graphiti.py:770-793 | a single path stays one iff the new episode joins behind `last_episode_uuid` |
| `SagaChain.SuppliedPredecessorMayBranch` | graphiti_core/graphiti.py:763-778 | a supplied predecessor that is not the last episode makes the chain branch |
| `SagaChain.LinkAllKeepsPathIffAtEnd` | graphiti_core/graphiti.py:1462-1483 | a single path stays one iff the batch joins behind `last_episode_uuid` |
| `SagaChain.LookedUpRunsStayPathsIff` | graphiti_core/graphiti.py:408-434 | over a run whose predecessors are looked up, the chain stays one path, however ties are broken, iff before each call the episode linked last is strictly later than every other |
| `SagaChain.TimeOrderedPathIff` | graphiti_core/graphiti.py:1454-1490 | it stays one path in time order iff every call brings only later episodes, in time order |
| `SagaChain.OutOfOrderBranchesAtTheNextCall` | graphiti_core/graphiti.py:420-434 | after an episode linked out of order it is the next lookup that branches off |
| `SagaChain.TreeMeans` | graphiti_core/graphiti.py:770-793 | no walk along NEXT_EPISODE returns to its start, and every linked episode but the first has exactly one incoming edge |
| `SagaChain.RunsStayTreesIff` | graphiti_core/graphiti.py:751-793 | over a run of single and bulk ingestion the saga stays a tree with one HAS_EPISODE edge per episode iff every call brings only new episodes behind a linked predecessor |
| `SagaChain.LatestIsLast` | graphiti_core/graphiti.py:420-434 | in a chronological saga the predecessor query finds the episode linked last |
| `SagaChain.OrderedRunsArePaths` | graphiti_core/graphiti.py:751-793 | the same with predecessors that are looked up or supplied as the last one: later episodes only give one path in time order ending at `last_episode_uuid` |
| `SagaIngestion.LaterBatchIsInOrder` | graphiti_core/graphiti.py:1454-1460 | a batch of later episodes of distinct times, as bulk ingestion sorts and links it, is such a call |
| `SagaIngestion.Saga.PreviousEpisode` | graphiti_core/graphiti.py:408-434 | the answer is a linked episode other than the current one that none follows in reference and then creation time, and none iff there is no other |
| `SagaIngestion.Saga.ProcessEpisode` | graphiti_core/graphiti.py:751-793 | the supplied or found predecessor gets the edge; a tree stays one iff the episode is new and a supplied predecessor is linked |
| `SagaIngestion.SortIsStable` | graphiti_core/graphiti.py:1455 | sorting by reference time keeps the order of episodes of the same time |
| `SagaIngestion.Saga.LinkBatch` | graphiti_core/graphiti.py:1462-1483 | the loop chains the sorted batch behind the predecessor |
| `SagaIngestion.Saga.AddBulk` | graphiti_core/graphiti.py:1454-1490 | the batch, stably sorted, is linked behind a latest episode of the saga and the fields are updated; a tree stays one iff the batch repeats nothing and is new |
| `SagaSummary.WatermarkNeverDecreasesIff` | graphiti_core/graphiti.py:567-577 | the reference-time watermark never goes back in a run iff no ingestion saves an older one |
| `SagaSummary.StaleNodeLowersWatermark` | graphiti_core/graphiti.py:788-793 | a saga node fetched before a summary takes the watermark back and makes summarized episodes unseen again |
| `SagaSummary.WatermarkIsMaximumIff` | graphiti_core/graphiti.py:562-578 | throughout a run it is the maximum reference time over every episode summarized iff every ingestion saves the stored one |
| `SagaSummary.AlwaysShownIff` | graphiti_core/graphiti.py:502-527 | every answer of the summary query shows an unseen episode iff fewer than 200 rows of others may come before it |
| `SagaSummary.FetchIs` | graphiti_core/graphiti.py:502-527 | an answer has only rows that match, and leaves one out only if it has 200 that come first: the oldest in an incremental summary, the latest in a first one, by reference and then creation time |
| `SagaSummary.SummaryMeans` | graphiti_core/graphiti.py:533-577 | a summary without content changes nothing; with some, the filter becomes the wall clock and the reference-time watermark moves forward to the latest time among the rows with content |
| `SagaSummary.SummaryCoversAllIff` | graphiti_core/graphiti.py:493-566 | a summary leaves no linked episode out, however the query breaks ties, iff every pending one is unseen, has content and has fewer than 200 rows of others ahead of it |
| `SagaSummary.SummaryLosesNothingIff` | graphiti_core/graphiti.py:533-566 | there is no middle: a summary that reads some content passes nothing over for good iff it leaves nothing out |
| `SagaSummary.EmptyEpisodeIsPassedOver` | graphiti_core/graphiti.py:533-537 | an episode without content, summarized together with another, is passed over |
| `SagaSummary.EverySummaryCoversAllIff` | graphiti_core/graphiti.py:493-578 | over every run and whatever watermarks are saved, nothing is ever lost and no summary can leave anything out, backfilled episodes included, iff every ingestion links in time and every summary finds a fitting saga |
| `SagaSummary.LinkingTwiceCutsOneOff` | graphiti_core/graphiti.py:781-787 | where an episode has 199 rows ahead of it, linking another unseen one again makes it miss a summary |
| `SagaSummary.FirstEpisodesReachTheLimit` | graphiti_core/graphiti.py:502-527 | the first 200 episodes of a saga fit one summary until the latest is linked again, in time as it is |
| `SagaSummary.LaterEpisodesReachTheLimit` | graphiti_core/graphiti.py:502-515 | of 201 episodes that follow a summary the next one takes the oldest 200, and the latest is lost |
| `SagaSummary.ExistingEpisodeIsMissed` | graphiti_core/graphiti.py:1124-1127 | an existing episode linked by its uuid after a summary that is later than its creation is lost, though it has content |
| `SagaSummary.LostForeverIff` | graphiti_core/graphiti.py:502-527 | an episode passed over or linked too late stays unsummarized and out of reach iff no ingestion sets the filter back to before its creation |
| `SagaSummary.SagaNode.Associate` | graphiti_core/graphiti.py:788-793 | linking episodes, again or for the first time, adds their links and saves the node that was passed, watermarks included; an empty batch saves nothing |
| `SagaSummary.SagaNode.EpisodesData` | graphiti_core/graphiti.py:531-544 | the contents are counted and the reference times of episodes that have content and carry one are collected |
| `SagaSummary.SagaNode.Summarize` | graphiti_core/graphiti.py:531-578 | on what the query returned, empty contents change nothing; otherwise both watermarks move as specified |
| `BulkDedupe.TakeUnseen` | graphiti_core/graphiti.py:850-853 | one episode's share is its first mentions of uuids not seen before |
| `BulkDedupe.FreshAreFirst` | graphiti_core/graphiti.py:850-853 | a share consists of the first mentions themselves, in the order in which they were listed |
| `BulkDedupe.SharesArePartition` | graphiti_core/graphiti.py:844-853 | sharing out loses nothing iff no repeated episode mentions something first, shares nothing twice, and gives each uuid to the episode that mentions it first |
| `BulkDedupe.ShareHasNoRepeats` | graphiti_core/graphiti.py:850-853 | no share repeats a uuid |
| `BulkDedupe.ShareNodes` | graphiti_core/graphiti.py:840-853 | no lookup misses its key, and the shares are the first-occurrence shares of the looked-up nodes |
| `BulkDedupe.SharedAreCanonical` | graphiti_core/graphiti.py:849-853 | every node that is shared out is the one filed under its uuid |
| `BulkDedupe.CanonicalKeepsPlaces` | graphiti_core/graphiti.py:849 | replacing nodes by the ones filed under their uuid changes nobody's share |
| `BulkDedupe.EnterLastWins` | graphiti_core/graphiti.py:840-877 | of several nodes with one uuid the last entered stands for it, resolved nodes replacing extracted ones |
| `BulkDedupe.UpdateNodes` | graphiti_core/graphiti.py:880-886 | every node is replaced by the one it was resolved to; a key is missing iff some target is unknown |
| `BulkDedupe.NoLookupMisses` | graphiti_core/graphiti.py:869-886 | if the resolver maps only to nodes it returned, no lookup of a shared node misses its key |
| `BulkDedupe.ResolveEdgePointers` | graphiti_core/utils/bulk_utils.py:758-765 | every edge object's endpoints are rewritten in place, once for each time it is listed |
| `BulkDedupe.ShareEdges` | graphiti_core/graphiti.py:904-914 | edges go to the first episode that lists them, and every endpoint has been rewritten once per listing |
| `BulkDedupe.RepeatedRewritingIsHarmlessIffSettled` | graphiti_core/graphiti.py:907-908 | rewriting an edge again for another episode changes nothing iff the map sends no target on to a third uuid |
| `BulkDedupe.UnsettledMapMovesTwice` | graphiti_core/graphiti.py:907-908 | a map with a chain of two moves an endpoint of an edge listed twice to the end of the chain |
| `BulkDedupe.ListedEdgesPointToTargets` | graphiti_core/graphiti.py:907-908 | with such a map every listed edge ends at its mapped endpoints, however often it is listed |
| `BulkDedupe.MergeMaps` | graphiti_core/graphiti.py:869-873 | updating one map with each resolver's in turn gives their merge |
| `BulkDedupe.LastAnswerCounts` | graphiti_core/graphiti.py:869-873 | where several resolvers answer for one uuid the last answer counts |
| `BulkDedupe.SharesGiveDisjointKeys` | graphiti_core/graphiti.py:856-873 | resolvers that answer for the nodes they were asked about return maps with disjoint keys, so no update overwrites another |
| `BulkDedupe.MergedIsSettledIff` | graphiti_core/graphiti.py:869-873 | the merged map is settled iff every resolver that was asked about a target keeps it |
| `DirectedUuidMap.BuildDirectedUuidMap` | graphiti_core/utils/bulk_utils.py:82-118 | the map covers exactly the uuids of the pairs and sends each to where the pairs, entered in order, lead it |
| `DirectedUuidMap.UuidForest.Find` | graphiti_core/utils/bulk_utils.py:92-104 | climbing and compressing paths finds the root and changes nobody's root |
| `DirectedUuidMap.UuidForest.Link` | graphiti_core/utils/bulk_utils.py:106-109 | the source's tree, and no other, now ends at the target's root |
| `DirectedUuidMap.CanonSameIffConnected` | graphiti_core/utils/bulk_utils.py:82-118 | two uuids end together iff the pairs connect them |
| `DirectedUuidMap.DirectedMapIsSettled` | graphiti_core/utils/bulk_utils.py:82-118 | the map sends no target on to a third uuid and identifies exactly the connected ones |
| `DirectedUuidMap.CanonicalIff` | graphiti_core/utils/bulk_utils.py:82-118 | a uuid is canonical iff no pair with a source connected to it brings in a target that is not |
| `DirectedUuidMap.DirectionKeptIff` | graphiti_core/utils/bulk_utils.py:83-88 | what is no alias stays canonical iff no pair takes such a uuid away; pairs may repeat or name a uuid twice |
| `DirectedUuidMap.OneTargetKeepsDirection` | graphiti_core/utils/bulk_utils.py:589-594 | so it does if no uuid is resolved to two different others, however often each pair is entered |
| `DirectedUuidMap.AliasResolvedTwice` | graphiti_core/utils/bulk_utils.py:85-89 | of an alias resolved to two uuids in turn, the first ends at the second |

## Left out

- A waiter abandoned without `CancelledError` (a closed loop, `GeneratorExit`): `graphiti_core/async_limiter.py:152-163` does not handle it, and the protocol has no such step. Nor does `ExecutorBound` let a search end its await in a `BaseException` other than `CancelledError` (`graphiti_core/driver/neptune_driver.py:975-977`), which gives its slot back while the worker still runs.
- `add_done_callback` raising at `graphiti_core/async_limiter.py:64-68`: the model registers the callback in the same step as the hold.
- The future's internal lock: a release is one step of the protocol; `LimiterRefinement.InterruptedReleaseIsAtomic` shows why cancellations between its turns do not matter.
- Holding a worker after release was requested: `_execute_query_in_thread` submits before it holds, so `ExecutorBound` lets a pipeline launch a query only while no release was requested.
- Index names, mappings and the choice of client: one index at a time, always known; an index is there or not for the whole of one operation, and the existence probe itself does not fail.
- `VectorIndex.AossIndex.SaveVectorToAoss`: with projections disabled it reports success without writing, as the code does; the durability clauses are stated for enabled projections. What exactly is stored is said of uuids that occur once in the batch.
- `VectorIndex.AossIndex.DeleteDocumentIds`: the returned count is promised for distinct ids only, because an id in two requests is counted in both; with other writers at work it promises the stored version, not the tombstone.
- `VectorIndex.AossIndex.DeleteQuery`: other writers are quiet while it runs, because a concurrent write can move a document into or out of the scope between pages; completeness is promised where documents in scope lie under their own uuids, because a tombstone is written under its id and would otherwise change places between pages; sort values are always returned with a full page.
- `VectorIndex.AossIndex.PurgeQuery`: no one else writes, which the code demands as a quiesced scope; the repair's graph side and its backfill order are not modelled.
- A failure that the network reports as a version conflict on one of the batch's own ids is trusted by the code; the model assumes it does not happen for an action that was never delivered.
- Unversioned text writes for nodes and edges: last write wins, nothing to prove.
- `ProjectionLifecycle.Entity.Save`: versions appear as generations, `VectorWrites.ExternalVersion` adding the same constant to each; the text write between commit and projection is not modelled; edges run the same sequence at `graphiti_core/edges.py:485-531`.
- `ProjectionLifecycle.PendingMarkerIsSound`: projections are enabled; with them disabled a save returns without writing and still clears the marker.
- `ProjectionLifecycle.StepKeeps`: hard deletion of vector documents by a repair is not among its steps.
- Parsing of query results (`get_neptune_projection_versions`) and attribute filtering: dispatch over record shapes.
- `SagaIngestion.Saga.ProcessEpisode`: the saga node passed carries the stored first and last fields; the path that names the saga by a string rebuilds its node without them (`graphiti_core/graphiti.py:395-402`) and is not modelled here.
- `SagaIngestion.Saga.AddBulk`: the tree clause leaves out a saga that links an episode with the empty uuid, which the predecessor query would exclude.
- `SagaSummary.SagaNode.Summarize`: no ingestion overlaps a summary, the clock does not go back, an episode keeps its times, and the summary text is not modelled.
- Embeddings, scores, prompts, Cypher text, transport, logging, index creation and authentication: foreign calls or plain field copying.
