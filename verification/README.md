# RaftVec, modelled and proved in Dafny

RaftVec is a vector search service. Records are spread over shards by a hash of their id, every shard is a Raft
group of replicas, and an aggregator routes writes, fans searches out to all shards and merges their answers. The
project states and proves that the whole of it answers a search exactly as one store holding the same data would,
and what it takes for that to stay true through retries, crashes, lagging replicas, snapshots and failed shards.

The main results, from the bottom up:

- **Exact top-k** (`TopK.dfy`, `Search.dfy`): a bounded heap holds exactly the k greatest of everything it was given,
  after any pushes and merges; the parallel scan returns sort-and-truncate for every schedule and iteration order.
- **The store and its log** (`StoreSpec.dfy`, `Store.dfy`, `Replay.dfy`, `StateMachine.dfy`, `LogStore.dfy`): replaying a
  log leaves under each id what its last accepted write put there; a snapshot at any position replaces the log before it.
- **One replica group** (`Replication.dfy`, `Creates.dfy`, `TornSnapshot.dfy`): in every run each live replica is the fold of
  the committed prefix up to its own label, every collection from its creation on, with the exact condition under which
  that is what the whole prefix makes of the collection; and every answered search shows each write acknowledged before
  it began, unless the collection came too late for it. The runs can do what they should: replicas catch up, writes are
  committed and acknowledged, snapshots carry a replica's state over, searches are confirmed and answered.
- **Finding the leader** (`Retry.dfy`, `Service.dfy`): a potential function bounds all failed attempts over any sequence of
  cancellable calls, and with it the number of searches that can fail.
- **The cluster** (`Sharding.dfy`, `Merge.dfy`, `Cluster.dfy`, `Cuts.dfy`, `Status.dfy`, `EndToEnd.dfy`): after every history of
  requests, including ones only some shards committed and copies a retry logs again later, the sharded cluster holds a
  partition of the single store and its merged answers are the single store's answers. A search that runs while clients
  write is compared with the history cut at what each shard answered from, which holds every request acknowledged before
  the search began (`EndToEnd.AckedRequestSeen`). With the shipped timeouts and one live leader per shard, the client gets
  the single store's reply, results or rejection, wherever the router's cached guesses point
  (`EndToEnd.EverySearchSettled`). Every history has runs of this kind (`EndToEnd.EveryHistoryCanBeServed`).

How things are represented:

- A float is its 32-bit pattern. `f32::total_cmp` is computed on patterns, and is proved to be the numeric order on
  finite values. Addition, multiplication, division and square root are parameters (`Numeric.Arith`): results about scores
  hold for all of them, so no rounding law is used. `Geometry.dfy` works over exact reals, and `Exactness.dfy` links the two:
  where the operations of a computation are exact, the score is the geometric cosine.
- The hash is a parameter; nothing is assumed of it.
- `BinaryHeap` is a multiset with a worst element on top, `HashMap` a map iterated in arbitrary order, `BTreeMap` a map
  iterated in key order. Rayon is an arbitrary binary tree over contiguous pieces, empty pieces included.
- An RPC attempt is a function from attempt number and replica to an outcome; a cancelled call is a number of completed
  attempts; time is counted in milliseconds per attempt.
- Store operations and snapshot builds are atomic steps in `Replication.dfy`. `TornSnapshot.dfy` drops that for the build.
- openraft is assumed to keep its contract: one committed log that only grows and is applied in order, snapshots that
  move a replica forward, and a read check that succeeds only once the replica has applied everything committed when the
  read began. Log compaction follows section 7 of the extended Raft paper, the read check section 6.4 of Ongaro's Raft
  dissertation.

Where the code does less than its documentation says, the model follows the code:

- The README of RaftVec and its chaos audit speak of every acknowledged write being present. `NodeService::insert` and
  `delete` acknowledge the request's size without reading `applied_count`; `Service.InsertAckTrueIff` and
  `Service.DeleteAckTrueIff` say exactly when the acknowledgement is true, `Service.LostInsertExample` and
  `Service.RepeatedDeleteExample` give inputs for which it is not.
- `build_snapshot` takes no lock over its three reads. `TornSnapshot.UnlockedBuildExactIff` gives the exact condition under
  which the snapshot is the state its label claims.
- A batch with a wrong dimension is rejected whole by one node but shard by shard in the cluster.
  `Cluster.OneMoreRequestIff` gives the exact condition for agreement, `Cluster.HalfStoredExample` a batch that breaks it.
- Collections are created outside the log. `Creates.LateCreateIff` says when a late create matters
  (`Creates.LateCreateExample` is one), and `Creates.SnapshotForgetsCreate` shows that installing a snapshot drops
  collections its sender did not have. `Replication.dfy` assumes nothing about the order of creates, commits, applies and
  snapshots; `Replication.ReplicaShownRightIff` says, for every run, exactly when a replica shows a collection as its log
  makes it, and `Replication.InTimeLosesNothing` that it does when the collection was there before any command named it.
- A redirect with an empty leader address reads as a served empty answer (`Service.SearchServedIff`,
  `Service.EmptyRedirectExample`).
- The comment on retries calls upserts idempotent. `Replay.ReplayInvisibleIff` says when a second copy is invisible,
  `Cluster.LateCopyIff` the same for a copy logged late on one shard of a cluster, and `Replay.LateRetryResurrects` shows one
  that is not. The cluster results hold for all histories whose late copies are invisible in this sense.

## Model

| member | source | states |
|---|---|---|
| Numeric.TotalCmpIsNumeric | crates/raftvec-core/src/record.rs:33-39 | on finite scores the comparison is the numeric order; only the two zeros are told apart |
| Numeric.NansRankOutside | crates/raftvec-core/src/record.rs:33-39 | what is not a number ranks below all numbers with the sign bit and above them without |
| Numeric.ZeroIsNumeric | crates/raftvec-core/src/similarity.rs:31 | a float compares equal to 0.0 exactly when its value is 0 |
| Numeric.CountsWrap | crates/raftvec-node/src/raft.rs:224-233 | a count below 2^32 is reported as it is, and counts 2^32 apart alike |
| Record.RankingIsTotal | crates/raftvec-core/src/record.rs:33-45 | the ranking is a strict total order on id and score bits, so no tie is open |
| Record.RankingDirection | crates/raftvec-core/src/record.rs:21-39 | the higher score wins, equal scores go to the lower id |
| TopKSpec.TopAbsorbs | crates/raftvec-core/src/topk.rs:61-67 | cutting a part to its own top-k (or more) first never changes the top-k of the whole |
| TopKSpec.TopAbsorbsAll | crates/raftvec-core/src/topk.rs:61-67 | the same for any number of parts |
| TopKSpec.TopUnique | crates/raftvec-core/src/topk.rs:5-11 | the k greatest of a multiset are unique |
| TopKSpec.TopSortsToTruncation | crates/raftvec-core/src/topk.rs:44-49 | sorting what the heap kept is the head of the full sort |
| TopKSpec.DescendingIsSortDesc | crates/raftvec-core/src/topk.rs:44-49 | any correct descending sort computes the reference order |
| TopKSpec.MergeIsMonoid | crates/raftvec-core/src/topk.rs:36-42 | merging kept contents is commutative, associative and has the empty heap as identity |
| TopKSpec.MergeOfTruncations | crates/raftvec-core/src/topk.rs:61-67 | ranking the parts' own top-k lists together ranks the parts |
| TopKSpec.TruncationKeepsWinners | crates/raftvec-aggregator/src/router.rs:212-216 | a winner of the whole also wins in any part it lies in |
| TopK.TopK.Push | crates/raftvec-core/src/topk.rs:22-34 | the heap stays exactly the k greatest of everything pushed |
| TopK.TopK.Merge | crates/raftvec-core/src/topk.rs:36-42 | after draining another heap in any order it is the k greatest of both histories (when the other's k is not smaller) |
| TopK.TopK.IntoSortedVec | crates/raftvec-core/src/topk.rs:44-49 | sort-and-truncate of everything ever pushed |
| TopK.BoundedTopK | crates/raftvec-core/src/topk.rs:52-59 | sort-and-truncate of the items |
| TopK.MergeTopK | crates/raftvec-core/src/topk.rs:61-67 | sort-and-truncate of the concatenated lists |
| Search.FoldReduce | crates/raftvec-core/src/search.rs:20-32 | for every split tree the reduced heap has seen exactly the scores of all entries |
| Search.BruteForceTopK | crates/raftvec-core/src/search.rs:14-34 | for every split tree the result is sort-and-truncate of all scores |
| Similarity.ComputeNormSq | crates/raftvec-core/src/similarity.rs:13-19 | the loop is the left-to-right sum of squares, operation by operation |
| Similarity.ComputeCosineFromNorms | crates/raftvec-core/src/similarity.rs:30-41 | zero norms give 0.0, otherwise dot over the product of roots, on zipped slices; `Exactness.CosineMeans` says what that is |
| Similarity.FusedCosine | crates/raftvec-core/src/similarity.rs:21-28 | one loop with three accumulators yields the same bits as the separate loops, for any float operations |
| Exactness.CosineMeans | crates/raftvec-core/src/similarity.rs:1-41 | for every choice of operations and reading of floats under which the computation is exact, the score is the dot product over the product of the lengths, 0 for a zero vector, and lies in [-1, 1] |
| Exactness.ExactExample | crates/raftvec-core/src/similarity.rs:48-51 | such computations exist: [1] against itself scores exactly 1 |
| Exactness.CosineCommutes | crates/raftvec-core/src/similarity.rs:30-41 | rounded or not, record and query may change places bit for bit when multiplication commutes |
| Geometry.CauchySchwarz | crates/raftvec-core/src/similarity.rs:30-41 | over exact reals dot squared is at most the product of the squared norms |
| Geometry.NormNonNegative | crates/raftvec-core/src/similarity.rs:13-19 | a squared norm is zero exactly for the zero vector |
| Geometry.CosineRange | crates/raftvec-core/src/similarity.rs:1-41 | scores lie in [-1, 1], self-similarity is 1, the zero vector scores 0 |
| Geometry.CosineScaleInvariant | crates/raftvec-core/src/similarity.rs:74-79 | positive scaling of a record changes no score |
| Geometry.QueryScalePreservesRanking | crates/raftvec-core/src/similarity.rs:74-79 | positive scaling of the query keeps the order of any two records |
| StoreSpec.UpsertLookup | crates/raftvec-node/src/store.rs:83-90 | a batch leaves the last record of each id it names and touches no other id |
| StoreSpec.OperationsKeepOk | crates/raftvec-node/src/store.rs:43-107 | create, insert and delete keep keys equal to ids, cached norms equal to norms, dimensions right |
| StoreSpec.SnapshotRoundTrip | crates/raftvec-node/src/store.rs:151-202 | restoring a snapshot gives back the store, cached norms included |
| StoreSpec.DeleteCountExact | crates/raftvec-node/src/store.rs:93-107 | as many records go as ids are named exactly when the ids are all present and different |
| StoreSpec.TotalSizeRemove | crates/raftvec-node/src/store.rs:141-149 | the count over all collections does not depend on the order of counting |
| StoreSpec.CreateVerdict | crates/raftvec-node/src/store.rs:43-62 | a create is accepted exactly when the name is free, adds one empty collection with its settings, and otherwise names the collection and changes nothing |
| StoreSpec.InsertVerdict | crates/raftvec-node/src/store.rs:64-91 | an insert is accepted exactly when the collection exists and all dimensions fit, and answers the batch size; a rejection names the collection or the first misfit's two dimensions |
| StoreSpec.DeleteVerdict | crates/raftvec-node/src/store.rs:93-107 | a delete answers how many different ids it found, or that the collection is missing |
| StoreSpec.SearchVerdict | crates/raftvec-node/src/store.rs:109-126 | a search is accepted exactly when the collection exists and the query has its dimension; a rejection says which failed |
| Store.ScanScores | crates/raftvec-node/src/store.rs:127-131 | scanning cached norms in any map order scores like computing every cosine from scratch |
| Store.CheckDims | crates/raftvec-node/src/store.rs:74-81 | the first record with a wrong dimension decides the error |
| Store.RemoveIds | crates/raftvec-node/src/store.rs:99-106 | the loop removes the named ids and counts the drop in size |
| Store.Store.CreateCollection | crates/raftvec-node/src/store.rs:43-62 | the new collections and the reply are those of the specification, and the invariant holds |
| Store.Store.InsertRecords | crates/raftvec-node/src/store.rs:64-91 | unknown collection and wrong dimension change nothing; otherwise the batch is upserted with fresh norms |
| Store.Store.DeleteIds | crates/raftvec-node/src/store.rs:93-107 | the named ids are gone, the reply counts those that were there |
| Store.Store.SearchCollection | crates/raftvec-node/src/store.rs:109-132 | exact top-k by true cosine for every map order and schedule, and the two error replies |
| Store.Store.GetMetadata | crates/raftvec-node/src/store.rs:134-139 | the stored metadata, or nothing |
| Store.Store.ClusterStatus | crates/raftvec-node/src/store.rs:141-149 | each collection named once, all records counted as a u32 |
| Store.Store.TakeStoreSnapshot | crates/raftvec-node/src/store.rs:151-177 | for every iteration order the snapshot of the specification |
| Store.Store.RestoreSnapshot | crates/raftvec-node/src/store.rs:179-202 | the snapshot's records under their own ids with recomputed norms; the exact store when its keys are ids |
| Replay.RunLookup | crates/raftvec-node/src/raft.rs:215-241 | replaying a log leaves under each id what its last accepted write put there |
| Replay.SameWritesSameStore | crates/raftvec-node/src/raft.rs:215-241 | logs with the same last writes leave the same store |
| Replay.RunKeepsOk | crates/raftvec-node/src/raft.rs:218-234 | keys, cached norms and dimensions stay right along every log |
| Replay.AppliedCount | crates/raftvec-node/src/raft.rs:218-234 | a command's count is the size of an accepted batch, the number of different ids a delete found, and 0 when rejected |
| Replay.ReplayInvisibleIff | crates/raftvec-aggregator/src/router.rs:65-69 | applying a stretch again is invisible exactly when nothing after it wrote something else to its ids |
| Replay.SuffixReplayInvisible | crates/raftvec-node/src/raft.rs:207-243 | re-applying the end of the log changes nothing |
| Replay.RetryInvisible | crates/raftvec-aggregator/src/router.rs:65-69 | a retried command separated only by commands on other ids acts like one copy |
| Replay.LateRetryResurrects | crates/raftvec-aggregator/src/router.rs:65-69 | a retry after a delete of the same id brings the record back |
| StateMachineSpec.ApplyBatches | crates/raftvec-node/src/raft.rs:207-243 | however the log is cut into any number of batches, the state and the concatenated responses are those of one call |
| StateMachineSpec.AppliedParts | crates/raftvec-node/src/raft.rs:214-241 | the store replays the commands, the label is the last entry, the membership the last one configured |
| StateMachineSpec.ResponseAt | crates/raftvec-node/src/raft.rs:213-242 | every entry's response is what its own command applied to the store it met, and 0 for an entry without one |
| StateMachineSpec.SnapshotReplacesPrefix | crates/raftvec-node/src/raft.rs:177-263 | installing a snapshot from any cut and applying the rest equals replaying the whole log |
| StateMachine.ShardStateMachine.Apply | crates/raftvec-node/src/raft.rs:207-243 | the applied state and one response per entry, as the fold defines them; `StateMachineSpec.AppliedParts` and `StateMachineSpec.ResponseAt` say what they are |
| StateMachine.ShardStateMachine.BuildSnapshot | crates/raftvec-node/src/raft.rs:177-191 | store, label and membership of the current state |
| StateMachine.ShardStateMachine.InstallSnapshot | crates/raftvec-node/src/raft.rs:251-263 | bytes that do not decode change nothing; otherwise label and membership are the snapshot's and every collection holds its records under their own ids, which is the exact state when its keys are ids |
| TornSnapshot.UnlockedBuildExactIff | crates/raftvec-node/src/raft.rs:177-191 | the unlocked build is exact for every log exactly when no entry is half applied at the store read, none starts before the label read and none takes effect before the membership read |
| TornSnapshot.TornBuildSkips | crates/raftvec-node/src/raft.rs:178-216 | otherwise the label runs ahead: a replica that installs the snapshot and follows the log misses in its store exactly the entries between, ends with the full log's label, and with the membership as of the third read or a later one from the rest of the log |
| LogStoreSpec.StepRefines | crates/raftvec-node/src/raft.rs:116-149 | a legal append, truncate or purge does to the map what it does to the abstract log |
| LogStoreSpec.IllegalStepBreaks | crates/raftvec-node/src/raft.rs:116-149 | any other one leaves a gap |
| LogStoreSpec.HistoryRefines | crates/raftvec-node/src/raft.rs:60-149 | every legal history keeps the log one contiguous window after the purge point |
| LogStoreSpec.AppendAtEnd | crates/raftvec-node/src/raft.rs:124-127 | the usual append extends the log by exactly the new entries |
| LogStoreSpec.RangeReadIsSlice | crates/raftvec-node/src/raft.rs:69-75 | on a window a range read is the slice, in index order |
| LogStore.LogStore.AppendEntries | crates/raftvec-node/src/raft.rs:116-130 | entries are stored under their index, later ones on top |
| LogStore.LogStore.TruncateFrom | crates/raftvec-node/src/raft.rs:132-139 | everything from the index on is gone |
| LogStore.LogStore.PurgeUpTo | crates/raftvec-node/src/raft.rs:141-149 | everything up to the index is gone and the purge point recorded |
| LogStore.LogStore.TryGetLogEntries | crates/raftvec-node/src/raft.rs:69-75 | the stored entries of the range in order; the slice whenever the log is a window |
| LogStore.LogStore.GetLogState | crates/raftvec-node/src/raft.rs:81-93 | the last entry's id, or the purge point of an empty log |
| Creates.PlayIsSchemaThenLog | crates/raftvec-node/src/raft.rs:31-35 | with creates first, a replica's store is the schema followed by the log, whatever the interleaving |
| Creates.ReplicasAgree | crates/raftvec-node/src/raft.rs:31-35 | replicas with one log and the same first settings per collection end equal |
| Creates.LateCreateIff | crates/raftvec-node/src/store.rs:43-62 | a late create matters exactly when the earlier commands would have left a record |
| Creates.LateCreateExample | crates/raftvec-node/src/store.rs:43-73 | a create after an upsert into its collection loses the record |
| Creates.CreateAcceptedIff | crates/raftvec-node/src/store.rs:50-52 | whatever a replica has seen, a create is accepted exactly when it is the first of its name |
| Creates.SnapshotForgetsCreate | crates/raftvec-node/src/store.rs:179-181 | installing a snapshot drops collections its sender had not created; later commands on them are lost |
| Replication.EveryRun | crates/raftvec-node/src/raft.rs:176-276 | in every run each live replica, each snapshot and each answered search is a replay of a committed prefix, collection by collection from its creation on |
| Replication.CreateAdds | crates/raftvec-node/src/store.rs:43-62 | a live replica gets the collection, empty if new, and keeps everything else |
| Replication.ApplyAdvances | crates/raftvec-node/src/raft.rs:207-243 | applying any number of missing entries moves a live replica on by that number and touches nothing else |
| Replication.CanCatchUp | crates/raftvec-node/src/raft.rs:207-243 | in every run a live replica can reach the end of the log |
| Replication.WriteRound | crates/raftvec-node/src/service.rs:94-126 | in every run a command can be committed, applied by a live replica and acknowledged, and the log then ends with it |
| Replication.SnapshotTransfers | crates/raftvec-node/src/raft.rs:177-263 | in every run a replica that installs a snapshot it is not ahead of becomes what the sender was when it built it, whatever happened in between |
| Replication.SearchRound | crates/raftvec-node/src/service.rs:157-219 | a search can be answered once its live replica has applied everything committed when it began; the answer carries what was acknowledged at that moment and the replica's own store |
| Replication.UnconfirmedStaysSilent | crates/raftvec-node/src/service.rs:178-186 | without the quorum check no answer is given, whatever happens |
| Replication.ReplicasConverge | crates/raftvec-node/src/raft.rs:1-5 | live replicas at the same position have the same label and membership and the same records in every collection neither lost anything of; having lost nothing they are equal exactly when they have the same collections |
| Replication.ServedReadsSeeAckedWrites | crates/raftvec-node/src/service.rs:157-199 | for each accepted write acknowledged before it began, an answered search shows that write or a later one exactly when it is a delete or some write of the id came after the collection's creation; so always when the collection was there in time |
| Replication.ShownRightIff | crates/raftvec-node/src/store.rs:179-181 | a replayed store shows a collection as the whole log makes it exactly when nothing the log left there before its creation is still missing |
| Replication.ReplicaShownRightIff | crates/raftvec-node/src/raft.rs:218-234 | the same for every live replica of every run, whatever the order of creates, commits, applies and snapshots |
| Replication.InTimeLosesNothing | crates/raftvec-node/src/store.rs:43-62 | a collection created before any command names it has lost nothing |
| Replication.UnconfirmedReplicaCanBeStale | crates/raftvec-node/src/service.rs:178-186 | without the quorum check a live replica can miss an acknowledged write |
| Service.SearchServedIff | crates/raftvec-node/src/service.rs:157-219 | a reply counts as served exactly for a confirmed leader's successful search, or when the known leader is another node recorded with an empty address |
| Service.EmptyRedirectExample | crates/raftvec-node/src/service.rs:161-169 | such a redirect reaches the merge as a served answer without results |
| Service.ServedByConfirmedLeader | crates/raftvec-node/src/service.rs:157-219 | with proper addresses every merged answer is a confirmed leader's own result, every other response is empty and carries the known leader's address, and "unavailable" means no known or no confirmed leader |
| Service.SearchesReachLeader | crates/raftvec-node/src/service.rs:40-53 | replicas that know their leader or none give the replies the router's retries need |
| Service.RejectedCreateStatus | crates/raftvec-node/src/service.rs:72-92 | the reply to a second create of a name says it exists |
| Service.WriteServedIff | crates/raftvec-node/src/service.rs:54-70 | a write is taken for done exactly when committed, or forwarded to an empty address; a forward carries the leader's address, all else is an error |
| Service.AckedWriteCommitted | crates/raftvec-aggregator/src/router.rs:316-365 | with proper addresses the router acknowledges a write only if an attempt was committed, and with its size |
| Service.WritesReachLeader | crates/raftvec-aggregator/src/router.rs:316-365 | when one replica commits and the others fail or forward to it, one call from at most three steps before it acknowledges the write |
| Service.InsertAckTrueIff | crates/raftvec-node/src/service.rs:94-126 | the acknowledged count is the applied count exactly when the store accepts the batch, or its size is 0 as a u32 |
| Service.LostInsertExample | crates/raftvec-node/src/service.rs:94-126 | an insert into a collection the leader lacks is acknowledged with 1 and stores nothing |
| Service.DeleteAckTrueIff | crates/raftvec-node/src/service.rs:128-155 | likewise for deletes, exactly when all ids were present once |
| Service.RepeatedDeleteExample | crates/raftvec-node/src/service.rs:128-155 | an id named twice is acknowledged with 2 and removed once |
| RetrySpec.AttemptsApproach | crates/raftvec-aggregator/src/router.rs:316-365 | every failed attempt brings the cached index strictly closer to the leader, and the answer is the leader's |
| RetrySpec.RedirectIsFollowed | crates/raftvec-aggregator/src/router.rs:341-346 | a redirect to the leader is followed at once |
| RetrySpec.CallSucceedsIff | crates/raftvec-aggregator/src/router.rs:56-58 | one uncancelled call always succeeds exactly when the leader is at most three steps ahead |
| RetrySpec.CarriesLastError | crates/raftvec-aggregator/src/router.rs:347-364 | an unserved call carries the error of the last attempt that ended in one, and none if all were redirects |
| RetrySpec.StaleRedirectsTrap | crates/raftvec-aggregator/src/router.rs:341-346 | two replicas redirecting to each other absorb a call for good |
| RetrySpec.TotalFailuresBounded | crates/raftvec-aggregator/src/router.rs:308-315 | any sequence of calls, cancelled anywhere, completes at most n - 1 failed attempts |
| RetrySpec.TotalFailuresAttained | crates/raftvec-aggregator/src/router.rs:308-315 | the bound is attained by calls dropped after one attempt against hanging replicas |
| RetrySpec.DeadlineLeavesAttempts | crates/raftvec-aggregator/src/router.rs:223-240 | a deadline over m times the attempt timeout lets m attempts complete; over four times, it never fires |
| RetrySpec.CompletedByExact | crates/raftvec-aggregator/src/router.rs:229-240 | the attempts that complete end before the deadline, and the next one would not |
| RetrySpec.AnsweredInTimeIff | crates/raftvec-aggregator/src/router.rs:229-240 | a search is answered exactly when one of its at most four attempts is served before the deadline |
| RetrySpec.SlowSearchFails | crates/raftvec-aggregator/src/router.rs:229-240 | when no attempt fits the deadline no search is answered, whoever leads |
| RetrySpec.FailedSearchesBounded | crates/raftvec-aggregator/src/router.rs:223-240 | with a deadline over m attempts, f failed searches satisfy f * m <= n - 1 |
| RetrySpec.FailedSearchesAttained | crates/raftvec-aggregator/src/router.rs:223-240 | with room for one attempt and hanging replicas every search fails until the hint has walked to the leader |
| RetrySpec.ShippedTimeoutsSuffice | crates/raftvec-aggregator/src/router.rs:60-63 | with the shipped settings the deadline never fires and up to four replicas never fail a search |
| Retry.ShardReplicaSet.CallWithRetry | crates/raftvec-aggregator/src/router.rs:316-365 | the result, the error and the cached hint after any number of completed attempts |
| Sharding.ShardIsRemainder | crates/raftvec-core/src/sharding.rs:7-12 | an id goes to shard s when its hash is s above a multiple of the shard count |
| Sharding.GroupByShard | crates/raftvec-aggregator/src/router.rs:290-301 | one group per shard, each the items it owns in their original order |
| Sharding.GroupsLoseNothing | crates/raftvec-aggregator/src/router.rs:293-301 | together the groups hold exactly the items |
| Sharding.GroupSizesAddUp | crates/raftvec-aggregator/src/router.rs:150-210 | the group sizes add up to the request's size |
| Sharding.UniformShrinks | crates/raftvec-node/src/store.rs:74-81 | a request its shards accept or reject alike stays so when only some of them commit it |
| Sharding.GroupKeepsLast | crates/raftvec-aggregator/src/router.rs:293-301 | splitting keeps the last record of each repeated id |
| Sharding.RoutedWrite | crates/raftvec-aggregator/src/router.rs:150-210 | a shard's part writes to an owned id what the whole request writes, and nothing else |
| Sharding.SubCommandParts | crates/raftvec-aggregator/src/router.rs:150-210 | what is left of a request committed by some of its shards routes to those shards as before and to the others not at all; committed by all, it is the request |
| Cluster.ShardLogWrite | crates/raftvec-aggregator/src/router.rs:150-210 | a shard's log, with late copies and partly committed requests, ends with the same write per owned id as the requests as far as they were committed |
| Cluster.LateCopyIff | crates/raftvec-aggregator/src/router.rs:65-69 | one more copy of an earlier request on one shard is invisible exactly when that shard logged nothing different for its ids since |
| Cluster.ClusterPartition | crates/raftvec-aggregator/src/router.rs:290-301 | in every reachable state each record lives on the shard it hashes to, as one store holds it, and nowhere else |
| Cluster.OneMoreRequestIff | crates/raftvec-node/src/store.rs:74-81 | after any orderly history, one more request keeps every shard a part of the single store exactly when its shards accept or reject it alike, or what its accepted parts write is there already |
| Cluster.UniformIsNecessary | crates/raftvec-node/src/store.rs:74-81 | on empty stores cluster and single store agree on a batch exactly when all its shards accept or reject alike |
| Cluster.HalfStoredExample | crates/raftvec-node/src/store.rs:74-81 | two shards and a batch with one wrong dimension: shard 0 keeps the good record, one node keeps none |
| Cluster.MergedAnswers | crates/raftvec-aggregator/src/router.rs:390-418 | merging the answers of disjoint parts is one scan over their union, metadata included |
| Cluster.ClusterSearchExact | crates/raftvec-aggregator/src/router.rs:212-264 | after every history the merged answer is the exact top-k of the shards that answered, and the single store's reply when all did; a search the single store rejects (unknown collection, wrong dimension) is answered by no shard and merges to nothing |
| Cluster.DegradedKeepsWinners | crates/raftvec-aggregator/src/router.rs:212-216 | a degraded answer holds every true winner whose shard answered |
| Merge.MergeScoredRecords | crates/raftvec-aggregator/src/router.rs:393-418 | the ranked concatenation with metadata handed out once per id |
| Merge.AttachMeaning | crates/raftvec-aggregator/src/router.rs:410-417 | the first result of an id gets its metadata, a repeated id gets none |
| Merge.LastMetadataStays | crates/raftvec-aggregator/src/router.rs:393-409 | of several records with one id the last one's metadata is kept |
| Merge.MergeKeepsRecords | crates/raftvec-aggregator/src/router.rs:393-418 | when no id is reported twice every result is a record some shard sent |
| Merge.CollectAnswers | crates/raftvec-aggregator/src/router.rs:247-263 | answers are merged, failed plus merged lists equals shards queried |
| ClusterStatus.GatherStatus | crates/raftvec-aggregator/src/router.rs:280-287 | the union of the names the answering shards report, and the sum of their counts as a u32 |
| ClusterStatus.ClusterStatusExact | crates/raftvec-aggregator/src/router.rs:266-288 | with every answering shard caught up the report counts, modulo 2^32, the single store's records without those of the shards that did not answer, and names its collections if any shard did |
| Cuts.CutLog | crates/raftvec-aggregator/src/router.rs:217-247 | under the cut history every shard logs exactly the prefix it answered from |
| Cuts.CutKeepsOrderly | crates/raftvec-aggregator/src/router.rs:217-247 | a history cut at any prefixes is again one the cluster results apply to |
| EndToEnd.AckedPartSeen | crates/raftvec-node/src/service.rs:178-186 | a search sees every part its shard acknowledged before the search began, through the part itself or a retried copy |
| EndToEnd.AckedRequestSeen | crates/raftvec-node/src/service.rs:178-186 | a request acknowledged by all its answering shards before the search began is seen whole |
| EndToEnd.QuietSearchSeesAll | crates/raftvec-aggregator/src/router.rs:217-264 | when everything was acknowledged before the search began, one store is the same after what the search saw as after the whole history |
| EndToEnd.EveryHistoryCanBeServed | crates/raftvec-node/src/service.rs:157-219 | every history and shard has a run in which its log is committed and a search on it answered |
| EndToEnd.RejectedSearchStatus | crates/raftvec-node/src/service.rs:72-80 | a leader tells a missing collection from a query of the wrong dimension |
| EndToEnd.GroupIsReachable | crates/raftvec-node/src/service.rs:40-53 | a group whose leader is confirmed and whose other replicas know it or nobody behaves as the next results assume |
| EndToEnd.SystemAnswersLikeOneStore | crates/raftvec-aggregator/src/router.rs:217-264 | for every history, shard and replica count, late copies, partial commits, runs of the groups and writes during the search, the answer is the reply of one store replaying what the search saw, its rejections included; with failed shards it is exact over the rest |
| EndToEnd.EverySearchSettled | crates/raftvec-aggregator/src/router.rs:217-264 | with the shipped timeouts and one live leader per shard of up to four replicas, every shard answers within the deadline a search one store accepts, none answers one it rejects, and the client gets that store's reply |

## Left out

- openraft itself (elections, terms, append-entries): its contract is a stated assumption of `Replication.dfy`.
- Transport, serialization and connection handling (`raft_network.rs`, protobuf, bincode, tonic): a message arrives as it was sent.
- IEEE rounding, overflow and NaN arithmetic: operations are parameters.
- `vecctl`, `bench`, chaos scripts, dashboards and metrics: input, output and measurement only.
- Replicas that restart empty after a crash: data is in memory only, so a crash is final in `Replication.dfy`.
- Concurrent calls sharing one leader hint: calls are sequential, as the bound on failed attempts needs.
- Lock-level interleavings inside `Store`, and the metadata lookup that follows a search in a separate critical section: both are one atomic step.
- The number `insert` and `delete` return from the router: the sum of the group sizes, which `Sharding.GroupSizesAddUp` makes the request's size.
- The replica-by-replica fallthrough of `cluster_status`: a shard's reply, or its absence, is an input of `ClusterStatus.GatherStatus`.
- `connect` and its start-up retries, and `create_collection`'s fan-out: their effect appears as the create steps of `Replication.dfy`.
- `save_committed`, `save_vote` and their readers: each stores or returns one value.
- Store.Store.ClusterStatus: adds sizes exactly and reduces once; wrapping every u32 addition gives the same number, a debug build's overflow panic is not modelled.
- StateMachine.ShardStateMachine.InstallSnapshot: the codec itself is not modelled, what the bytes decode to is an input; for a snapshot two of whose entries carry one record id either may stay, as in the code.
- Histories with a late copy that is visible (something different was written to its ids in between): the shard then really differs from the single store, as `Cluster.LateCopyIff` and `Replay.LateRetryResurrects` show, so the cluster results leave them out.
- Searches answered by a leader that lost part of the collection (`Replication.ShownRightIff`): its answer really is wrong, so `EndToEnd.dfy` asks that the answering leader, if it has the collection, lost nothing of it.
- Atomicity of a request across shards: a search may see some parts of a request that was not acknowledged before it began, in the code as in the cut history.
- ClusterStatus.GatherStatus: wraps on u32 overflow; a debug build's panic is not modelled.
- MetaRaft from the design document: not implemented in the repository.
