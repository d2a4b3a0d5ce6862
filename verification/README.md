# Verification of a distributed key/value laboratory

A Dafny model of the parts of the laboratory whose correctness is hard to see:
Raft with log compaction (stage 1), the replicated key/value store on top of it
(stage 2), the elastic connection pool (stage 3), the read cache (stage 4), shard
groups with live migration, their controller and the linearizability checker
(stage 5), and the splittable hash ring (stage 6). `dafny verify dfyconfig.toml`
checks the whole project.

Protocols are step systems: every point where the program drops a lock or waits
for another machine is a point where other steps may come in. Theorems speak of
every run from the initial state. Code that updates fields in place is a class
whose methods are proved against functions, and the theorems are about those
functions.

| component | files |
|---|---|
| Raft: handlers as functions on the full log, the cluster, its invariant, the theorems | `RaftCore`, `RaftProtocol`, `RaftInvariant`, `RaftSteps`, `RaftElection`, `RaftReplication`, `RaftAccept`, `RaftSnapshot`, `RaftCommit`, `RaftSafety`; what each handler answers: `RaftAnswers` |
| Raft: one node in place on the compacted log; its one way to panic | `RaftNode`, `RaftPanic`, `RaftPanicRun` |
| Key/value server, recovery, reads | `KvStore`, `KvReads` |
| Linearizability: definition and locality; the checker | `History`, `Checker` |
| Shard groups: state machine and server; the hand-off protocol | `ShardGroup`, `GroupNode`, `HandoffProtocol`, `HandoffInvariant`, `HandoffCommit`, `HandoffAdopt`, `HandoffSteps`, `HandoffSafety`; what gets done: `HandoffProgress`; shards that return: `HandoffReturn`, `HandoffLoss` |
| Shard controller and rebalancing | `ShardConfig`, `Placement`, `Rebalance`, `RebalanceLoop`, `Ctrler` |
| Read cache: list and map; interleavings | `Lru`, `CacheNode`, `CacheCoherence`, `CacheMonotone`, `CacheInversion` |
| Connection pool | `Pool`, `PoolMinimum` |
| Paths of a step relation; what a string register holds | `Paths`, `Register` |
| Hash ring and its controller | `HashRing`, `RingConfig`, `RingCtrler` |

## Assumptions

- Raft: requests may be lost and replies may be lost; between one leader term and
  one peer there is one outstanding request, delivered at most once and in order.
  A persister is attached, and each handler's write to it is atomic.
- Hand-off: each group is its one committed log (which the Raft theorems give);
  its replicas are prefixes of it. The theorems of `HandoffSafety` are for runs in
  which no shard is given back to an owner it was taken from; as every shard starts
  with owner 0 this includes that an owned shard is never left without a group.
  `HandoffReturn` and `HandoffLoss` are about all runs. Clients send one request at a time and retry with
  the same number.
- Cache: all writes go through the one cache and the store is atomic.
- Keys hash to shards and ring points by arbitrary fixed functions.

## Where code and documentation part

- `01-raft/raft.go:282,296`: AppendEntries with PrevLogIndex 0 on a compacted
  follower slices out of bounds. The model answers with a crash, and the safety
  theorems hold with it.
- `05-sharded-kv/config.go:98`: rebalance does not always move as few shards as
  possible; the exact condition is proved.
- `05-sharded-kv/history.go:128-132`: the per-key split is exact except for
  instantaneous operations at the same instant; the exact condition is proved.
- `03-connection-pooling/pooled_client.go:249-252`: a redialer can give up before
  the minimum is restored; the exact condition is proved.
- `06-hot-shard-splitting/ring_config.go:71-84`: a move onto a group without
  addresses is accepted, and the result does not validate; the exact condition is
  proved.
- `05-sharded-kv/group_server.go:316-324`: a shard that comes back to a group keeps
  its leaving entry, so a late GC deletes data the group serves; the exact condition
  is proved.

## Model

| member | source | states |
|---|---|---|
| `RaftSafety.StateMachineSafety` | 01-raft/raft.go:268-316 | In every run with elections, lost requests, lost replies, compaction, crashes and restarts, two nodes never hold different committed entries at one index, at any two moments. |
| `RaftSafety.LeaderCompleteness` | 01-raft/election.go:28-34 | Whatever any node held as committed in an earlier term is a prefix of the log of every later-term leader. |
| `RaftSafety.ElectionSafety` | 01-raft/election.go:49-101 | At most one node is ever leader of a term, although election goroutines start late, outlive their candidacy or overlap. |
| `RaftSafety.LogsMatch` | 01-raft/raft.go:281-298 | Logs that agree on the term at an index agree on everything up to it, whatever AppendEntries has cut off, and terms never decrease along a log. |
| `RaftSafety.FollowerCommitVerified` | 01-raft/raft.go:304-311 | A follower never commits past the part of its log that equals the sending leader's log, although the cap is its own last index. |
| `RaftSafety.IndicesOrdered` | 01-raft/persist.go:103-139 | In every run lastIncludedIndex <= lastApplied <= commitIndex <= last index. |
| `RaftSafety.OwnTermRead` | 02-kv-store/server.go:349-374 | Section 8: a leader's state machine past an entry of the leader's own term is past everything committed in any earlier term. |
| `RaftSafety.TakeInv` | 01-raft/log_replication.go:56-123 | Every step of every node keeps the protocol invariant (votes, leaders' logs at election, acknowledged match points). |
| `RaftSafety.RunInv` | 01-raft/raft.go:149-166 | Hence the invariant holds at every point of every run from first boot. |
| `RaftSafety.RunMono` | 01-raft/persist.go:88-107 | Recorded votes, won elections, their ledgers and acknowledgements are never taken back, across crashes too. |
| `RaftElection.WinnerComplete` | 01-raft/raft.go:210-225 | A candidate with a majority of granted votes has every entry that could still be or become committed in an earlier term. |
| `RaftElection.FreshTerm` | 01-raft/state.go:113-130 | A term being won has not been won before. |
| `RaftAccept.AcceptAppendInv` | 01-raft/raft.go:281-311 | Cutting the log unconditionally at PrevLogIndex and appending the leader's whole suffix keeps the invariant. |
| `RaftSnapshot.DeliverSnapInv` | 01-raft/raft.go:342-400 | Installing a snapshot keeps the invariant, whether the suffix behind it is kept or dropped. |
| `RaftReplication.AppendReplyInv` | 01-raft/log_replication.go:93-123 | Applying a reply to nextIndex and matchIndex, stale or not, keeps the invariant. |
| `RaftReplication.AdvanceCommits` | 01-raft/commit.go:34-56 | An index the leader commits is held by a majority in its own term. |
| `RaftCommit.CommitRule` | 01-raft/commit.go:34-56 | Testing only the sorted majority element sets commitIndex to the largest N above it that a majority matches with an entry of the current term, and does nothing exactly when there is none. |
| `RaftCommit.MajorityMatchIs` | 01-raft/commit.go:38-46 | The element at the middle of the descending match points is the largest index a majority has reached. |
| `RaftPanic.PanicsIff` | 01-raft/raft.go:295-298 | AppendEntries slices out of bounds exactly on new entries with PrevLogIndex 0 at a follower that has compacted. |
| `RaftPanic.CompactedPrevRefused` | 01-raft/snapshot.go:29-41 | A positive PrevLogIndex below lastIncludedIndex is refused and changes nothing but the term. |
| `RaftPanic.ResentFirstEntryPanics` | 01-raft/log_replication.go:62-92 | A follower that accepted, applied and compacted the first entry panics when the leader, its answer lost, resends it. |
| `RaftPanicRun.PanicReached` | 01-raft/log_replication.go:56-123 | A run of three nodes from first boot that ends there, with one lost reply and no other fault. |
| `RaftAnswers.VoteGrantedIff` | 01-raft/raft.go:196-231 | A vote is granted exactly if the term is not over, no vote for another stands in it, and the candidate's log has a later last term, or the same one and no fewer entries, or ours is empty. |
| `RaftAnswers.SomeoneCanWin` | 01-raft/election.go:28-34 | Of any logs one is not behind any other, so in every cluster some node, standing in a new term, would be granted every vote. |
| `RaftAnswers.ElectionWonIff` | 01-raft/election.go:73-97 | A reply makes a leader exactly if it is a vote for the standing candidacy and completes a strict majority; every peer then starts after the leader's own log. |
| `RaftAnswers.AppendAcceptedIff` | 01-raft/raft.go:268-316 | AppendEntries succeeds exactly if its term is not over and the entry before the new ones is present with its term; what log and commit index then are. |
| `RaftAnswers.ReplyMeans` | 01-raft/log_replication.go:99-123 | A refusal moves nextIndex one back, a success records the match and moves it past, an answer to another term is ignored, and other peers are untouched. |
| `RaftAnswers.ReplicationConverges` | 01-raft/log_replication.go:56-123 | No more undisturbed exchanges than nextIndex is above the follower's snapshot bring the leader's whole log to the follower, and the leader knows it. |
| `RaftAnswers.SuccessCommits` | 01-raft/log_replication.go:84-92 | The follower then commits as far as the leader. |
| `RaftAnswers.SnapshotMeans` | 01-raft/raft.go:342-377 | A snapshot past the follower's own keeps a log that agrees with it and replaces any other; committed and applied indices never go back. |
| `RaftAnswers.SnapshotCatchesUp` | 01-raft/log_replication.go:133-179 | An installed snapshot brings the follower to it and the leader's nextIndex past it. |
| `RaftAnswers.StandingMeans` | 01-raft/state.go:88-102 | Standing takes the very next term and the own vote. |
| `RaftAnswers.SteppingDownMeans` | 01-raft/state.go:62-74 | Stepping down forgets the vote exactly if the term is new. |
| `RaftAnswers.ProposalMeans` | 01-raft/log.go:16-31 | A leader's proposal becomes its last entry; anyone else's changes nothing. |
| `RaftAnswers.ApplyAndCompactMean` | 01-raft/snapshot.go:79-109 | Committed entries are handed out until none is left, and exactly what has been handed out may be compacted. |
| `RaftAnswers.CrashKeeps` | 01-raft/persist.go:88-140 | A crash keeps term, vote, log and compaction point and nothing else. |
| `RaftNode.Raft.constructor` | 01-raft/raft.go:149-166 | A first boot is an empty follower of term 0, already saved. |
| `RaftNode.Raft.Restore` | 01-raft/persist.go:88-140 | Restoring the saved state gives back exactly the crashed node's term, vote, full log and compaction point; the rest is volatile. |
| `RaftNode.Raft.RequestVote` | 01-raft/raft.go:196-231 | On the compacted log, grants exactly as stated over the full log, and the vote is on disk before the answer. |
| `RaftNode.Raft.AppendEntries` | 01-raft/raft.go:268-316 | On the compacted log, behaves as on the full one, including the out-of-bounds case; persisted before answering. |
| `RaftNode.Raft.InstallSnapshot` | 01-raft/raft.go:342-377 | Trims or replaces the log as on the full log. |
| `RaftNode.Raft.LastLogInfo` | 01-raft/election.go:15-21 | Reads the last index and term of the full log. |
| `RaftNode.Raft.TermAtIndex` | 01-raft/snapshot.go:29-41 | Knows the term of exactly the indices from the snapshot to the end of the log. |
| `RaftNode.Raft.CandidateLogIsUpToDate` | 01-raft/election.go:28-34 | True exactly if the full log is empty, or the candidate's last term is later, or the same with no fewer entries. |
| `RaftNode.Raft.StepDown` | 01-raft/state.go:62-74 | A higher term clears the vote; the same term keeps it. |
| `RaftNode.Raft.StandForElection` | 01-raft/state.go:88-102 | Raises the term and votes for itself, on disk, unless already leader. |
| `RaftNode.Raft.TakeOffice` | 01-raft/state.go:113-130 | Only a candidate becomes leader; every peer starts from the end of the full log with nothing matched. |
| `RaftNode.Raft.CountVote` | 01-raft/election.go:73-100 | Counts a reply only for the term it was asked in and crowns at a majority. |
| `RaftNode.Raft.BallotFor` | 01-raft/election.go:49-64 | An election asks with the term and the end of the full log the node has when it starts. |
| `RaftNode.Raft.AdvanceCommitIndex` | 01-raft/commit.go:34-56 | The in-place sort and test are the commit rule on the full log. |
| `RaftNode.Raft.ProposeCommand` | 01-raft/log.go:16-31 | A leader appends one entry of its term at the returned index, on disk; others change nothing. |
| `RaftNode.Raft.NextFor` | 01-raft/log_replication.go:56-92 | Sends the whole suffix of the full log from nextIndex, or the snapshot when that is compacted away. |
| `RaftNode.Raft.AppendAnswered` | 01-raft/log_replication.go:93-123 | Updates nextIndex and matchIndex as on the full log. |
| `RaftNode.Raft.SnapshotAnswered` | 01-raft/log_replication.go:133-179 | Likewise after an installed snapshot. |
| `RaftNode.Raft.Snapshot` | 01-raft/snapshot.go:79-109 | Compacts through an applied index without changing the full log; refuses anything else. |
| `RaftNode.Raft.ApplyNext` | 01-raft/apply.go:94-131 | Hands out the entries of the full log one by one up to commitIndex. |
| `KvStore.ReplayOverNewerSnapshot` | 02-kv-store/server.go:243-256 | Replaying the log from any i over the state reached at any j >= i gives the state of the whole log. |
| `KvStore.RecoveryIsExact` | 02-kv-store/server.go:167-189 | A disk whose snapshot is at least as new as its state blob restores exactly the store and dedup table of the committed log, whatever the blob's own suffix holds past it. |
| `KvStore.CrashDuringSnapshot` | 01-raft/persister.go:144-151 | Wherever a crash falls between the snapshot write and the state write, after Snapshot or after InstallSnapshot over a diverging suffix, recovery is exact and the disk stays recoverable. |
| `KvStore.StateFirstLosesWrites` | 01-raft/persister.go:132-151 | Writing the state first would lose a write. |
| `KvStore.RetryChangesNothing` | 02-kv-store/server.go:243-256 | A request delivered again at any later point changes neither store nor dedup table. |
| `KvStore.FirstDelivery` | 02-kv-store/server.go:243-256 | A first delivery sets or extends its own key and advances its own client, nothing else. |
| `KvStore.AppliedIsSeen` | 02-kv-store/server.go:243-256 | After a log is applied its dedup table has caught up with every operation in it. |
| `KvStore.SeenIsNoOp` | 02-kv-store/server.go:243-256 | Operations the dedup table has caught up with change nothing. |
| `KvStore.KVServer.Apply` | 02-kv-store/server.go:236-256 | One committed entry: a no-op records its term, a retry changes nothing, a first write takes effect. |
| `KvStore.KVServer.ApplyEntries` | 02-kv-store/server.go:210-272 | The apply loop over a stretch of the log is that stretch applied in order; from a fresh server every key holds its last effective Put and the effective Appends after it, and noopAppliedTerm is the term of the last no-op. |
| `KvStore.LogLeaves` | 02-kv-store/server.go:243-256 | For every log and key: the value is the last Put to it whose number is above every earlier one of its client, followed by such Appends after it. |
| `KvStore.TableIsHighest` | 02-kv-store/server.go:243-256 | A client's dedup entry is its highest number in the log. |
| `KvStore.KVServer.TakeSnapshot` | 02-kv-store/server.go:181-189 | The snapshot is store and dedup table together. |
| `KvStore.KVServer.RestoreSnapshot` | 02-kv-store/server.go:167-174 | Restoring replaces both wholesale. |
| `KvStore.KVServer.Get` | 02-kv-store/server.go:349-374 | Answers only as leader with an applied no-op of the current term. |
| `KvReads.ReadGateMissesNothing` | 02-kv-store/server.go:349-374 | When noopAppliedTerm is the leader's term, the store behind its Get, which may trail its Raft node, extends everything any node held as committed in an earlier term; each of those writes is in its dedup table. |
| `Checker.Search` | 05-sharded-kv/history.go:177-212 | The memoised search terminates and succeeds exactly when some completion from this state exists; the memo holds only dead states. |
| `Checker.ReadyNext` | 05-sharded-kv/history.go:221-232 | An entry may go next exactly when real time forces no other unplaced entry before it. |
| `Checker.LinearizableForKey` | 05-sharded-kv/history.go:161-171 | Refuses more than 63 entries; otherwise true exactly if some permutation puts nothing before what had returned by its invocation and every Get returned the last Put before it with the Appends after that Put. |
| `Checker.IsLinearizable` | 05-sharded-kv/history.go:133-144 | A decision is exactly per-key linearizability and, for intervals of positive length, exactly the existence of one such order of the whole history. |
| `Checker.GroupByKey` | 05-sharded-kv/history.go:134-137 | Grouping gives each key its sub-history in order. |
| `Checker.FullMask` | 05-sharded-kv/history.go:178-180 | A mask of n bits has n ones exactly when every entry is placed. |
| `Checker.CompletesStep` | 05-sharded-kv/history.go:186-208 | An entry starts a completion exactly when it is ready, its result fits and the rest completes the next state. |
| `History.Locality` | 05-sharded-kv/history.go:122-144 | For Invoke <= Return a global order exists if and only if every key has one and no two operations of zero length share an instant. |
| `History.LocalityOfProperIntervals` | 05-sharded-kv/history.go:122-144 | For Invoke < Return the per-key split is exact, as documented. |
| `History.LocalityCounterexample` | 05-sharded-kv/history.go:128-132 | Without that, two instantaneous writes to two keys are linearizable per key and not together. |
| `History.ValueIsContent` | 05-sharded-kv/history.go:193-204 | After any operations a key's register holds the last Put and the Appends after it, in order. |
| `History.StoreIsContent` | 05-sharded-kv/history.go:193-204 | So does each key of the whole store, over the operations on that key. |
| `History.KeyLinearizableMeans` | 05-sharded-kv/history.go:146-160 | What linearizable means for one key, over intervals and results alone. |
| `History.LinearizableMeans` | 05-sharded-kv/history.go:122-132 | And for a whole history. |
| `History.SequentialHistory` | 05-sharded-kv/history.go:234-239 | Operations that never overlap can only be ordered as they happened. |
| `HandoffSafety.UniqueServer` | 05-sharded-kv/group_server.go:170-177 | In every run, at most one group's committed state is ready for a shard. |
| `HandoffSafety.ServesTheWrites` | 05-sharded-kv/group_server.go:327-364 | What the ready group holds for a shard is the fold of the effective writes to it, across any chain of migrations. |
| `HandoffSafety.ExactlyOnce` | 05-sharded-kv/group_clerk.go:86-112 | Every acknowledged write took effect, none twice, and nothing took effect that no client issued. |
| `HandoffSafety.WritesInRealTimeOrder` | 05-sharded-kv/group_clerk.go:86-112 | A write acknowledged before another was issued takes effect before it. |
| `HandoffSafety.NothingIsLost` | 05-sharded-kv/group_server.go:538-610 | Some group's committed state always holds every effective write to a shard. |
| `HandoffSafety.CollectedWasDelivered` | 05-sharded-kv/group_server.go:340-349 | A GC deletes only a copy the recipient's committed log has held, of a shard no longer served here. |
| `HandoffSafety.PullsAgree` | 05-sharded-kv/group_server.go:728-756 | All donor replicas that answer a pull, lagging or not, give the same data: all effective writes. |
| `HandoffSafety.TakeInv` | 05-sharded-kv/group_server.go:285-383 | Every step (commit of any entry, pull, readiness answer, reconfiguration, client) keeps the hand-off invariant of every shard. |
| `HandoffSafety.RunInv` | 05-sharded-kv/group_server.go:285-383 | Hence it holds throughout every run. |
| `HandoffSafety.NeverCollectsServed` | 05-sharded-kv/group_server.go:340-349 | A group never serves a shard it still means to collect. |
| `HandoffProgress.ServesContent` | 05-sharded-kv/group_server.go:350-364 | The serving group holds for each key the last effective Put and the effective Appends after it. |
| `HandoffProgress.ServedWriteIsTaken` | 05-sharded-kv/group_server.go:350-364 | An issued write committed where its shard is served, the first time or again, is acknowledged and among the effective writes, once. |
| `HandoffProgress.UnservedWriteIsRefused` | 05-sharded-kv/group_server.go:351-353 | Anywhere else it is refused and changes nothing. |
| `HandoffProgress.NextIsAdopted` | 05-sharded-kv/group_server.go:312-326 | The next configuration is adopted: shards gained from nobody are served at once, gained from a group awaited, lost ones refused and kept for their new owner. |
| `HandoffProgress.HandOffCompletes` | 05-sharded-kv/group_server.go:477-535 | When the donor has the data and has caught up, a pull is answered and its Migrate lands exactly the effective writes. |
| `HandoffProgress.CollectionCompletes` | 05-sharded-kv/group_server.go:558-610 | When the recipient serves the shard, its answer leads to a GC that removes the donor's copy. |
| `HandoffProtocol.RefIsContent` | 05-sharded-kv/group_server.go:350-364 | The reference contents of a shard are, key by key, the last Put and the Appends after it. |
| `HandoffReturn.CollectsServedIff` | 05-sharded-kv/group_server.go:340-349 | A GC deletes what a group serves exactly if the shard is still in leaving and not empty. |
| `HandoffReturn.OnlyReturnedIsCollected` | 05-sharded-kv/group_server.go:316-324 | In every run, whatever the controller does, that can only happen to a shard that left the group and came back. |
| `HandoffLoss.AcknowledgedWriteLost` | 05-sharded-kv/group_server.go:558-610 | And it does happen: for any first write of a client there is a run of commits, pulls and a readiness answer in which the shard comes back and the acknowledged write is gone from the group that serves it. |
| `ShardGroup.EffectIs` | 05-sharded-kv/group_server.go:350-364 | A write sets or extends its own key and touches no other. |
| `ShardGroup.SliceOfMerge` | 05-sharded-kv/group_server.go:327-339 | Merging one shard's data leaves every other shard's keys alone and, onto nothing, is that data. |
| `HandoffInvariant.ChainBack` | 05-sharded-kv/group_server.go:312-339 | Every owner before a group that has the data had it too and has stopped serving. |
| `HandoffAdopt.AdoptShard` | 05-sharded-kv/group_server.go:312-326 | Adopting the next configuration freezes exactly what was served and serves at once only what nobody owned. |
| `HandoffCommit.LandHere` | 05-sharded-kv/group_server.go:327-339 | A landing Migrate puts exactly the effective writes in place, whoever proposed it and however late. |
| `HandoffSteps.PulledIsRight` | 05-sharded-kv/group_server.go:728-756 | What a pull returns is right for as long as it could still land. |
| `HandoffSteps.ConfirmedIsRight` | 05-sharded-kv/group_server.go:765-772 | A group that answers ready has landed the shard. |
| `HandoffSteps.EffectIsNew` | 05-sharded-kv/group_server.go:350-364 | A write that passes the dedup check has not taken effect before, anywhere. |
| `HandoffSteps.RetryIsDone` | 05-sharded-kv/group_server.go:350-364 | A write the serving group skips as a retry has taken effect before. |
| `GroupNode.GroupServer.constructor` | 05-sharded-kv/group_server.go:122-144 | A fresh replica has no configuration and no data. |
| `GroupNode.GroupServer.Owns` | 05-sharded-kv/group_server.go:170-177 | Ready: owned by the adopted configuration and not awaiting data. |
| `GroupNode.GroupServer.ApplyEntry` | 05-sharded-kv/group_server.go:299-368 | Applies one committed entry as the group state machine does; the answer is wrong-group exactly for a write whose shard is not owned or awaits its data, so a retry of a served write is told OK. |
| `GroupNode.GroupServer.ApplyConfig` | 05-sharded-kv/group_server.go:312-326 | The loop over shards adopts the next version only, recording gains and losses. |
| `GroupNode.GroupServer.ApplyMigrate` | 05-sharded-kv/group_server.go:327-339 | Merges data and the larger sequence numbers once, then clears the pending entry. |
| `GroupNode.GroupServer.ApplyGc` | 05-sharded-kv/group_server.go:340-349 | Drops exactly the shard's keys, only while it is leaving. |
| `GroupNode.GroupServer.ApplyWrite` | 05-sharded-kv/group_server.go:350-364 | Applies a write unless its number is not above the client's last. |
| `GroupNode.GroupServer.Pull` | 05-sharded-kv/group_server.go:728-756 | Answers only from the asked configuration on and not while awaiting the data itself, with exactly the shard's keys. |
| `GroupNode.GroupServer.HasShard` | 05-sharded-kv/group_server.go:765-772 | True exactly when ready. |
| `GroupNode.GroupServer.Get` | 05-sharded-kv/group_server.go:661-687 | Leader gate, then ownership, then the shard's value. |
| `GroupNode.GroupServer.TakeSnapshot` | 05-sharded-kv/group_server.go:221-236 | A snapshot carries configuration and pending hand-offs with the data. |
| `GroupNode.GroupServer.RestoreSnapshot` | 05-sharded-kv/group_server.go:206-216 | Restoring replaces all of it. |
| `RebalanceLoop.RebalanceShards` | 05-sharded-kv/config.go:108-165 | Every shard goes to a live group; the group with the i-th lowest id gets its floor-or-ceiling share; lowest shards stay and orphans are dealt in ascending order; no group, all zero. |
| `RebalanceLoop.HandOut` | 05-sharded-kv/config.go:148-156 | Each slice of orphans handed to a group is in range, and each shard ends with the group it belongs to. |
| `RebalanceLoop.Collect` | 05-sharded-kv/config.go:130-138 | Shards by owner, ascending; orphans are those without a live owner. |
| `RebalanceLoop.Trim` | 05-sharded-kv/config.go:139-145 | Groups above target give up exactly their highest shards. |
| `Placement.OrphansMatchNeeds` | 05-sharded-kv/config.go:148-156 | There are exactly as many orphans as groups need. |
| `Placement.AssignHitsTargets` | 05-sharded-kv/config.go:119-128 | Every group ends with exactly its target. |
| `Placement.AssignMovesLeast` | 05-sharded-kv/config.go:97-99 | No assignment with those group sizes moves fewer shards. |
| `Placement.LowestStay` | 05-sharded-kv/config.go:139-145 | Of a group's shards the lowest stay. |
| `Placement.MovedInOrder` | 05-sharded-kv/config.go:146-156 | Shards that move go in ascending order to groups in ascending order. |
| `Rebalance.RebalanceTwice` | 05-sharded-kv/config.go:108-165 | Rebalancing again with the same groups changes nothing. |
| `Rebalance.FewestMovesIff` | 05-sharded-kv/config.go:96-99 | Fewest moves among all balanced assignments: exactly when no group too high to keep an extra shard has one while one low enough has none. |
| `Rebalance.NeedlessMove` | 05-sharded-kv/config.go:96-107 | The documented minimum fails: 3/4/3 over groups 1, 2, 3 is balanced and one shard moves. |
| `Rebalance.BalanceFits` | 05-sharded-kv/config.go:119-128 | The targets add up to the number of shards for any counts. |
| `Ctrler.Join` | 05-sharded-kv/config.go:52-65 | Adds or updates groups and rebalances over the result, one version up. |
| `Ctrler.Leave` | 05-sharded-kv/config.go:71-84 | Removes groups and rebalances over the rest, one version up. |
| `Ctrler.Move` | 05-sharded-kv/config.go:90-94 | Moves at most that one shard, one version up. |
| `Ctrler.Controller.constructor` | 05-sharded-kv/ctrler.go:61-72 | The history starts with the empty configuration 0. |
| `Ctrler.Controller.ApplyEntry` | 05-sharded-kv/ctrler.go:97-137 | A first delivery appends exactly one configuration, a retry none; Num is the position and the past never changes. |
| `Ctrler.Controller.Query` | 05-sharded-kv/ctrler.go:258-281 | Answers with the configuration of that number, or the latest, behind the leader gate. |
| `CacheCoherence.CacheIsCoherent` | 04-caching/cache.go:225-305 | At every interleaved step each cached value and each fetched value that may still be cached is the store's, or the one before the key's single pending write. |
| `CacheCoherence.ReadsSeeReturnedWrites` | 04-caching/cache.go:225-262 | A Get that begins after a write returned never yields an older value, whether it hits, joins a fetch or leads one. |
| `CacheCoherence.WriteReturns` | 04-caching/cache.go:360-393 | When a write returns no older value of its key is left in the cache, under either policy. |
| `CacheCoherence.TakeInv` | 04-caching/cache.go:225-403 | Every interleaved step, a panicking store fetch included, keeps the coherence invariant. |
| `CacheCoherence.AllMarked` | 04-caching/cache.go:300-305 | A write leaves no unmarked or joinable fetch of its key. |
| `CacheCoherence.ServedWithinTtl` | 04-caching/cache.go:307-323 | Under a TTL an entry is served for less than that long after the fetch or write that filled it began. |
| `CacheCoherence.FillMeans` | 04-caching/cache.go:284-292 | A fetch fills the cache with what it read unless a write marked it. |
| `CacheCoherence.TouchMeans` | 04-caching/cache.go:360-393 | A write-through Put leaves its value first in the cache; every other write leaves nothing of its key. |
| `CacheCoherence.MissMeans` | 04-caching/cache.go:244-262 | A miss waits for the fetch under way, if one can be joined, and otherwise starts the only one. |
| `CacheCoherence.WakeMeans` | 04-caching/cache.go:248-255 | A closed fetch gives its value to all who joined it; a failed one makes them try again. |
| `CacheCoherence.LandMeans` | 04-caching/cache.go:360-393 | A landing write is one more change to its key and to no other. |
| `CacheMonotone.NeverBackIff` | 04-caching/cache.go:225-305 | From any reachable state, no Get begun later returns a value older than the store holds now, if and only if no older value is cached or held by a fetch that can be joined. |
| `CacheMonotone.OlderOnlyWhilePending` | 04-caching/cache.go:360-393 | Such an older value exists only while a write to the key has landed and not returned. |
| `CacheMonotone.SecondReadIsNewer` | 04-caching/cache.go:225-262 | Of two Gets one after the other the second is at least as new as the store was in between if no write was pending then, and at most one version older if one was. |
| `CacheInversion.GetsMayGoBack` | 04-caching/cache.go:273-294 | A reachable interleaving, with a write pending, in which the second Get returns the older value: the condition is needed. |
| `Lru.StackInclusion` | 04-caching/load_test.go:22-49 | Without TTL, for every trace a smaller cache's list is a prefix of a larger one's, so hits never fall as capacity grows. |
| `Lru.SequentialReads` | 04-caching/cache.go:225-262 | In sequence the list is duplicate-free within capacity, every cached value is the store's, and a read leaves its value at the front. |
| `Lru.InsertIs` | 04-caching/cache.go:332-351 | An insertion keeps the bound, is first, and drops at most the oldest entry. |
| `Lru.TouchIs` | 04-caching/cache.go:225-240 | A hit reorders and changes nothing else. |
| `Lru.TouchMovesFront` | 04-caching/cache.go:225-240 | A hit puts its entry first and leaves the others in their order. |
| `Lru.InsertKeepsOrder` | 04-caching/cache.go:332-351 | An insertion leaves the others in their order; what goes, from a full list without the key, is the oldest. |
| `Lru.WritesMean` | 04-caching/cache.go:360-393 | A write-through Put is cached first; other writes leave nothing of their key. |
| `Lru.ReadsMean` | 04-caching/cache.go:225-262 | A read is a hit exactly if its key is cached. |
| `CacheNode.Cache.constructor` | 04-caching/cache.go:187-211 | An empty cache of at least one entry. |
| `CacheNode.Cache.Lookup` | 04-caching/cache.go:225-246 | A live entry is a hit and moves to the front; one at or past its deadline is dropped; the map indexes exactly the list. |
| `CacheNode.Cache.Insert` | 04-caching/cache.go:332-351 | Overwrites the existing element in place or adds one and evicts the last; the map still indexes exactly the list. |
| `CacheNode.Cache.Invalidate` | 04-caching/cache.go:397-403 | Removes the key's element from map and list. |
| `Pool.Accounting` | 03-connection-pooling/pooled_client.go:189-238 | At every interleaved step count is free plus reserved, checked-out and in-hand slots, at most MaxSize, and each open connection is in exactly one place. |
| `Pool.SendsNeverBlock` | 03-connection-pooling/pooled_client.go:216-222 | Every send into the free list has room. |
| `Pool.IdleEvictionKeepsMin` | 03-connection-pooling/pooled_client.go:357-380 | Idle eviction never takes count below MinSize. |
| `Pool.NothingLeaks` | 03-connection-pooling/pooled_client.go:382-402 | Once no agent holds anything, the free list is every open connection. |
| `Pool.CheckoutMeans` | 03-connection-pooling/pooled_client.go:189-214 | A call takes an idle connection if there is one, dials if there is room, and waits only on a full pool. |
| `Pool.CallMeans` | 03-connection-pooling/pooled_client.go:170-182 | A call that went through gives its connection back, a failed one closes it; a failed dial gives back its slot and waits. |
| `Pool.EvictsIff` | 03-connection-pooling/pooled_client.go:357-380 | The evictor closes a connection exactly if the pool is above MinSize and it has been idle longer than the timeout. |
| `Pool.ReturnedAt` | 03-connection-pooling/pooled_client.go:220-222 | Idle time counts from the last return. |
| `Pool.TakeInv` | 03-connection-pooling/pooled_client.go:262-323 | Every step of callers, redialers and the evictor keeps the accounts. |
| `PoolMinimum.StepCoveredIff` | 03-connection-pooling/pooled_client.go:234-238 | From a state where every connection short of MinSize has an agent due to dial it, a step keeps it so exactly unless it releases a failed growth while count and those agents together are at most MinSize. |
| `PoolMinimum.RunCoveredIff` | 03-connection-pooling/pooled_client.go:189-214 | A whole run stays covered exactly as long as it has no such release. |
| `PoolMinimum.RetriesUntilRestored` | 03-connection-pooling/pooled_client.go:240-253 | The documented promise under that condition: until the pool is stopped, a count below MinSize leaves at least as many agents about to redial as are missing. |
| `PoolMinimum.RepairerDialsIff` | 03-connection-pooling/pooled_client.go:284-316 | An agent due to redial dials at its next move exactly if the count is short. |
| `PoolMinimum.MinimumNotRestored` | 03-connection-pooling/pooled_client.go:294-307 | Without it the promise fails: a redialer exits on a growth reservation that then fails, and nothing counted, open or about to dial remains. |
| `HashRing.ServingIsOnlyOwner` | 06-hot-shard-splitting/ring.go:44-65 | On a valid ring every point lies in exactly one range. |
| `HashRing.StartIsOwned` | 06-hot-shard-splitting/ring.go:135-152 | An entry's own start is the entry's. |
| `HashRing.AssignPoint` | 06-hot-shard-splitting/ring.go:123-133 | The binary search finds the entry with the greatest start at or before the point or, before all of them, the one with the greatest start. |
| `HashRing.NewRing` | 06-hot-shard-splitting/ring.go:78-88 | An evenly spaced ring is valid exactly up to 2^32 shards. |
| `HashRing.NextShardID` | 06-hot-shard-splitting/ring.go:95-103 | An id above every id in use. |
| `HashRing.SplitRing` | 06-hot-shard-splitting/ring.go:171-196 | Finds, checks, appends and sorts: a valid ring, or an error. |
| `HashRing.InsertedIsSort` | 06-hot-shard-splitting/ring.go:191-194 | The appended entry sorts to its place. |
| `HashRing.SplitKeepsValid` | 06-hot-shard-splitting/ring.go:171-196 | A split ring is valid with one fresh shard. |
| `HashRing.SplitMovesUpperHalf` | 06-hot-shard-splitting/ring.go:154-164 | Exactly the points from the split point to the end of the range change shard, all to the new one. |
| `HashRing.SplittableIff` | 06-hot-shard-splitting/ring.go:171-187 | A point splits a shard exactly if the shard serves it and no range starts there. |
| `HashRing.SplitRanges` | 06-hot-shard-splitting/ring.go:154-164 | The old shard keeps the range up to the point and the new one gets the range from it to the old end. |
| `HashRing.Validate` | 06-hot-shard-splitting/ring.go:203-219 | Accepts exactly the valid rings. |
| `HashRing.MidpointSplits` | 06-hot-shard-splitting/ring_config.go:86-106 | A midpoint is always an accepted split point, wrapping and one-shard rings included; no midpoint means no split point at all. |
| `HashRing.MidpointHalves` | 06-hot-shard-splitting/ring_config.go:86-106 | After the split the two ranges add up to the old one and differ by at most one point. |
| `HashRing.FindMidpoint` | 06-hot-shard-splitting/ring_config.go:91-106 | The point is halfway through the shard's range, rounding down; an error exactly if the range has fewer than two points or there is no such shard. |
| `RingConfig.NewRingConfig` | 06-hot-shard-splitting/ring_config.go:28-45 | Version 1 routes, shards dealt round-robin; a valid ring with addressed groups is accepted. |
| `RingConfig.Validate` | 06-hot-shard-splitting/ring_config.go:110-127 | Accepts exactly the routable configurations. |
| `RingConfig.SplitKeeps` | 06-hot-shard-splitting/ring_config.go:53-68 | A split keeps the configuration well formed. |
| `RingConfig.SplitMovesNoData` | 06-hot-shard-splitting/ring_config.go:47-68 | A split changes no point's group. |
| `RingConfig.SplitAcceptedIff` | 06-hot-shard-splitting/ring_config.go:53-68 | A split is accepted exactly at a point the shard serves and no range starts at. |
| `RingConfig.MoveAcceptedIff` | 06-hot-shard-splitting/ring_config.go:71-84 | A move is accepted exactly for a shard of the ring and a known group. |
| `RingConfig.MoveChangesOneShard` | 06-hot-shard-splitting/ring_config.go:71-84 | A move changes the group of exactly the moved shard's points. |
| `RingConfig.MoveRoutesIff` | 06-hot-shard-splitting/ring_config.go:71-84 | After a move the configuration routes exactly when the new owner has an address. |
| `RingConfig.UnroutableMove` | 06-hot-shard-splitting/ring_config.go:71-84 | A move onto a known group without addresses is accepted and does not route. |
| `RingCtrler.HistoryRoutes` | 06-hot-shard-splitting/ring_ctrler.go:93-117 | With an address for every group, every configuration in the history routes. |
| `RingCtrler.Controller.constructor` | 06-hot-shard-splitting/ring_ctrler.go:74-85 | The history starts with the zero configuration. |
| `RingCtrler.Controller.ApplyOp` | 06-hot-shard-splitting/ring_ctrler.go:93-117 | An accepted operation appends exactly its result, a refused one nothing; Num is the position. |
| `RingCtrler.Controller.ApplyEntry` | 06-hot-shard-splitting/ring_ctrler.go:119-151 | A retry gets the verdict of its first delivery and changes nothing. |
| `RingCtrler.Controller.Query` | 06-hot-shard-splitting/ring_ctrler.go:269-288 | Answers with the configuration of that number, or the latest, behind the leader gate. |

## Left out

- Timers, tickers, random timeouts, goroutine start and stop: each tick is a step that may or may not happen, so nothing is said about progress.
- net/rpc, gob, files and fsync, the two Transport implementations: represented by the assumptions above.
- The order of messages on ApplyCh when a snapshot is installed while entries are being delivered (01-raft/apply.go:94-131), and delivering an installed snapshot older than what the state machine has applied (01-raft/raft.go:392-397).
- RaftSafety.StateMachineSafety: does not cover a network that duplicates or reorders requests of one leader term to one peer, because the code relies on one outstanding request per peer.
- A cluster of one node: startElection counts votes only from peers' replies, so such a node never becomes leader in the model either.
- KvReads.ReadGateMissesNothing: does not cover a leader that has been silently replaced and still answers, a gap the code documents.
- Notify channels, commit timeouts and the clerks' retry loops, beyond keeping the request number until acknowledged.
- HandoffSafety.UniqueServer: says nothing about runs in which a shard returns to an earlier owner; AcknowledgedWriteLost shows that data may then be lost.
- Progress of migration and collection, which the code does not promise under rapid reassignment.
- A Move applied after its group has left (the controller checks only before proposing), and Config.Validate, which only clients call.
- CacheCoherence.CacheIsCoherent: does not cover a store whose Put or Append panics after taking effect, because then the cache is not touched at all.
- NewPool's initial dials and Close's drain loop as code; their effect is the initial state and NothingLeaks.
- HashRing.SplitRing: sort.Slice is represented by inserting the appended entry at its sorted place, which InsertedIsSort shows to be the sorted arrangement.
- Sixty-four-bit overflow of versions, terms, indices and shard ids.
- FNV-1a itself, Stats counters, LoadTracker, DetectHot, AutoSplitter, ShardedClient, NaiveClient, NewStaticConfig: they would add easy members only.
- Stages 7 to 10, which have no code.
