# MiniQuorum in Dafny

MiniQuorum is a Raft-replicated key-value store with a durable record log and an LSM storage
engine. This project models its three connected cores and proves them correct for every run.

**The Raft protocol with crashes.** `RaftSpec` gives the node's transitions as functions on
values; `RaftNode.Node` and `RaftLog.Log` are the node and log objects, updated field by field
and proved to compute those functions. `Cluster` is the transition system: a step feeds a live
node one tick, message or proposal and drains Ready in the host's order (save, send, apply,
advance); a crash may keep any prefix of a batch's records, or land after any number of sends and
applies; a restart rebuilds the node from its disk. The network is the set of everything ever
sent. `RaftHistory`, `RaftCoreSteps`, `RaftVolatile`, `RaftHandlers`, `Persistence` and
`ClusterInvariant` carry the inductive invariant, and `ClusterSafety` states the theorems of
sections 5.2 to 5.4.3 of "In Search of an Understandable Consensus Algorithm (Extended Version)"
over all runs; `RaftFigure8` shows that the current-term commit rule is needed. `Retention`
proves that what a node has applied never leaves its own disk. The other half is that nothing is
left undone: `RaftDuties` and `ClusterDuties` show that in every state of every run commitment
follows acknowledgement, every peer is served and every election is really held; `ClusterAnswers`
says when exactly votes are granted and entries accepted; and `ClusterProgress` builds, from
every state a run can reach, a continuation that elects a leader and has every node apply a new
proposal. `Host.Process` ties the model to bytes: a process over the crash-simulating storage
makes exactly one cluster step per cycle.

**Durable record logs.** `RecordCodec` and `CrashStorage` model the simulator's storage byte by
byte; `Frames` and `DiskLog` model the production log's symbol frames, segments, rotation and
failure latch. Cut at any byte, each recovers to the state after a whole number of records.

**The LSM engine.** `SkipList`, `Memtable`, `KWayMerge`, `SizeTiers`, `EngineModel` and
`EngineState` are the engine's parts and what each operation does to them; `TableFormat`, `Bloom`
and `SSTable` are the table file format with its writer and reader; `SimFs`, `Manifest`,
`LsmDisk`, `LsmStore` and `TablePublish` are the directory: crash atomicity of publishing a
table, committing an edit and recovering, over a file system that may fail or crash at every
operation. `Engine.Engine` is the engine object over that directory, and `EngineDirectory` the
link between the two: after any interleaving of writes, freezes, flushes, compactions, moved
marks, failures and crashes, a read returns the newest write, and the manifest names the engine's
tables or is one known edit away. `KvMachine` and `StateMachine` prove that replaying the log
over an engine that may already hold later writes gives the plain map machine's answers, and
succeeds exactly when that machine does; `KvHistory` says what those answers mean in terms of the
log alone. `LsmRecovery.Survive` is the theorem over whole lifetimes: any number of processes,
each failing or crashing anywhere, and the next undisturbed one has the map machine's state.
`Waiters` models the delivery of outcomes to waiting requests.

The cores meet in three places. `Retention.LivesShareOneLog` and `Retention.ReplayIsFed` show
that every cluster run feeds a node's state machine the one log `LsmRecovery.Survive` speaks of;
an entry whose application fails is, in the cluster's terms, the last one a dying process
applied. `Retention.ReplicasAgree` shows that all replicas then hold the same map. `Requests`
shows that the positions Raft promises to proposals keep waiting requests apart.

Success is always stated against the two limits that can be met: file numbers end at 2^64 - 1
(`Engine.Engine.Spare`, which a caller can test), and a table or a manifest edit must fit its
format (`FormatRoom.Roomy`). `LsmRecovery.Survive` bounds the numbers a whole lifetime uses, and
`EditCodec` gives a codec with which any 64 MiB of writes have room, so
`LsmRecovery.SurvivePlain` has neither exception left. The code's third limit, the last 32-bit
tier, is never met (`SizeTiers.TierFits`).

Assumptions are stated as preconditions where the code has them: node IDs are non-zero and
distinct and every node has the same sorted peer list; the snapshot base is (0, 0); terms and
indexes do not wrap. Checksums and Bloom hashes are arbitrary functions. The protobuf codecs of
the disk log and the manifest are any functions whose decoder inverts the encoder, and commands
are decoded by any function at all. A log has at most 2^64 - 1 entries. Randomness, clocks and
I/O outcomes are parameters, so every theorem covers all of them.

Two points where a reader may expect something else. The receiver's commit rule takes a minimum
that could lower its commit index for an arbitrary message; `ClusterSafety.LeaderCommitCovered`
shows that no message ever sent does. The state machine's direct read uses the engine even during
a replay, and then may run ahead of the entries applied so far; `StateMachine.Machine.Read` says
what it returns in both cases.

## Model

| member | source | states |
|---|---|---|
| ClusterSafety.StateMachineSafety | internal/raft/raft.go:399-463 | State Machine Safety over every run of ticks, proposals, lost, duplicated, reordered and delayed messages, crashes inside and after Save, and restarts: the sequences any two incarnations of any two nodes applied are prefixes of one another and numbered 1, 2, 3, … |
| ClusterSafety.AppliedOnlyExtends | sim/ready.go:184-243 | what an incarnation has applied is only ever extended |
| ClusterSafety.CommittedReachesLeaders | internal/raft/raft.go:603-628 | Leader Completeness over every run: whatever a node ever knew to be committed is a prefix of the log of every leader of a later term, before or after, dead or alive, and of its own term from then on |
| ClusterSafety.ElectionSafety | internal/raft/raft.go:285-314 | over every run, all AppendEntries ever sent in one term come from one node |
| ClusterSafety.OneLivingLeader | internal/raft/raft.go:367-397 | at no point of any run do two live nodes lead the same term |
| ClusterSafety.OneIncarnationLeads | internal/server/server.go:150-172 | a node that leads again after a restart leads a strictly higher term, because its term and vote were saved before anything was sent |
| ClusterSafety.LogMatching | internal/raft/log.go:112-152 | over every run, two stored logs that share a term at an index are identical through it, torn saves included |
| ClusterSafety.CommitNeverRetracted | internal/raft/raft.go:413-418 | no input ever lowers a node's commit index, changes its committed prefix, or marks anything at or below it for truncation |
| ClusterSafety.LeaderCommitCovered | internal/raft/raft.go:549-581 | every AppendEntries ever sent carries a leader commit no greater than the last index it covers, so the receiver's minimum never lowers its commit index |
| ClusterSafety.IncrementalPersistence | internal/raft/raft.go:191-267 | between host cycles storage equals the node's hard state and log, Ready is empty, and this incarnation has applied exactly indexes 1 to its commit index |
| ClusterSafety.TornSaveTolerated | internal/storage/disklog/disklog.go:608-635 | whatever prefix of a batch's records survives a crash inside Save, nothing was sent, the stored term covers every stored entry, and the node's committed prefix is still stored |
| ClusterSafety.HandleTerm | internal/raft/raft.go:153-188 | no input lowers a node's term, and a follower stops following only by entering a higher one |
| ClusterSafety.ProposalsDistinct | internal/raft/raft.go:180-188 | over every run, no two proposals taken by leaders are promised the same index and term, and all of one term are taken by one node |
| ClusterDuties.DutiesKept | internal/raft/raft.go:136-188 | in every state of every run every live node has done all it owes: what a leader, a candidate and a timer never leave undone, kept by every input, crash and restart |
| ClusterDuties.MajorityIsCommitted | internal/raft/raft.go:606-628 | over every run, for a live leader and every index above its commit index that holds an entry of its own term, the peers known to hold that index are no majority: commitment follows acknowledgement at once |
| ClusterDuties.EveryPeerServed | internal/raft/raft.go:422-463 | over every run, each other peer of a live leader is known to hold the whole log, or a request with the leader's own entries from the position tried for it is in the network |
| ClusterDuties.MatchIsStored | internal/raft/raft.go:436-449 | over every run, a peer whose stored term is a live leader's stores that leader's log up to the match index the leader has for it |
| ClusterDuties.CandidateAsksAll | internal/raft/raft.go:285-314 | over every run, a live candidate has asked every other peer with its own last index and term, and the votes it has counted, its own among them, are no majority |
| ClusterDuties.TimersWithin | internal/raft/raft.go:275-283 | over every run, no election or heartbeat is overdue, and every election timeout is the minimum or lies within the configured span, with the defaults filled in |
| ClusterDuties.EveryTimeoutPossible | internal/raft/raft.go:275-283 | after a restart each value of the configured span is the election timeout for some draw |
| ClusterAnswers.VoteAnswered | internal/raft/raft.go:371-387 | over every run, exactly when a vote is granted: the term is new, or the node's own with its vote free or already the candidate's, and the candidate's log is not older. The vote is on disk with the one answer in the network; a refusal still takes on a higher term; the election timer restarts exactly on a grant or a new term |
| ClusterAnswers.VoteCounted | internal/raft/raft.go:389-397 | over every run, a candidate counts each peer's vote of its term once and leads exactly when the votes are then a majority; any other answer changes nothing |
| ClusterAnswers.LeadershipStored | internal/raft/raft.go:341-365 | whatever makes a node leader, its stored log is the one it campaigned with and an empty entry of its term, and every other peer is sent a request without entries for the old end |
| ClusterAnswers.TickAnswered | internal/raft/raft.go:136-151 | a tick only counts until a timer runs out; then a leader sends every other peer a request, open ones again, and anyone else enters the next term and stores its own vote |
| ClusterAnswers.AppendAnswered | internal/raft/raft.go:399-420 | over every run, exactly when entries are accepted: their term is not past and the node stores the entry they build on. The stored log then is the old one if it holds them, else cut to them; the commit index is the greater of the two; the answer names the last index covered. Otherwise the log stays and the answer is a refusal |
| ClusterAnswers.AckAnswered | internal/raft/raft.go:422-463 | over every run, how a leader takes an answer to its open request: an exact acknowledgement is recorded and followed by the rest of the log, or by the new commit index if it moved; a refusal by a request one entry earlier, never below the match index; anything else changes nothing |
| ClusterAnswers.ProposalStored | internal/raft/raft.go:180-188 | a leader stores a proposal after its whole log in its own term; any other node stores and sends nothing |
| ClusterAnswers.CycleCompletes | internal/raft/raft.go:191-232 | a completed cycle stores exactly the handled node's hard state and log, sends exactly its messages, and leaves nothing to store, send or apply |
| ClusterProgress.AlwaysAWayForward | internal/raft/raft.go:136-188 | the cluster is never stuck: from every state of every run, unless a log is within two of the last index, some continuation elects a leader that appends the proposed data, and every node applies its whole log |
| ClusterProgress.CatchUp | internal/raft/raft.go:422-463 | whatever log a follower of the term has, answering its requests brings it up to date: refusals walk back to a shared entry and the rest is then sent |
| ClusterInvariant.StepOk | sim/ready.go:184-243 | every step of the cluster, crashing or not, preserves the cluster invariant |
| ClusterInvariant.RunOk | sim/ready.go:13-32 | the invariant holds after every run |
| ClusterInvariant.DriveOk | sim/ready.go:184-243 | handling one input and draining Ready preserves the invariant under each outcome: completed, torn inside Save, or dead after any number of sends and applies |
| ClusterInvariant.TornOk | sim/crashstorage.go:227-245 | a process that dies with any prefix of its batch's records on disk leaves the invariant intact and nothing new on the network |
| ClusterInvariant.RestartOk | sim/ready.go:88-136 | a node rebuilt from its disk with commit index 0 satisfies the invariant |
| ClusterInvariant.InitialInv | internal/server/recovery.go:19-41 | empty disks and no messages satisfy the invariant |
| ClusterInvariant.CommittedPrefixesAgree | internal/raft/raft.go:606-628 | any two committed prefixes agree on the shorter |
| Retention.AppliedStaysStored | sim/ready.go:88-136 | over every run, whatever any incarnation of a node has applied is a prefix of that node's own stored log, which is numbered from 1: the retained log covers everything its state machine may have kept |
| Retention.ReplayIsFed | internal/lsm/statemachine.go:65-83 | the entries a restarted node applies come numbered 1, 2, 3, … and are the ones its earlier incarnations applied, all within the retained log: the entry-side preconditions of `StateMachine.Machine.Apply` |
| Retention.LivesShareOneLog | internal/lsm/statemachine.go:65-83 | over every run, all incarnations of a node apply from the start of one log numbered from 1, all of which the node's storage retains: what `LsmRecovery.Survive` asks of its log and lives |
| Retention.ReplicasAgree | internal/statemachine/mapsm/mapsm.go:44-80 | any two incarnations of any nodes that applied i entries have the same key-value state and gave the same answers |
| Retention.HandleKeeps | internal/raft/raft.go:153-188 | no input removes a stored committed prefix from the log, even before the restarted node knows again that it is committed |
| Retention.SpliceKeeps | internal/raft/log.go:112-152 | splicing in a leader's entries keeps every prefix the leader holds too |
| Retention.TornKeeps | internal/storage/disklog/disklog.go:608-635 | every disk a torn save can leave keeps what the old and the new log share |
| Retention.StepRetains | sim/ready.go:184-243 | every step keeps every applied sequence stored |
| RaftHistory.LeaderCompleteness | internal/raft/commit_rule.go:7-9 | an index committed in term t by a majority holding an entry of term t is in the log of every later election's winner, by induction on the later term |
| RaftHistory.CommittedAgree | internal/raft/raft.go:606-628 | two committed indexes of any two terms lie on one log |
| RaftHistory.OneLeader | internal/raft/raft.go:367-382 | two majorities of one term's votes elect the same node |
| RaftHistory.LogsMatch | internal/raft/log.go:112-138 | logs grown only by leaders of their entries' terms match through any index where their terms agree |
| RaftHistory.QuorumsMeet | internal/raft/raft.go:367-369 | two sets that pass the majority test share a node |
| RaftFigure8.OldTermsMustNotBeCounted | sim/figure8_test.go:11-45 | the current-term clause is needed: in the history of Figure 8, which satisfies every invariant, a leader whose knowledge is all true commits under the variant rule an entry of an older term that a later winner lacks; under the real rule it commits nothing |
| RaftFigure8.RulesDiffer | internal/raft/raft.go:603-628 | the same leader state commits index 1 under the variant rule and nothing under the real one |
| RaftFigure8.HistoryOk | sim/figure8_test.go:11-45 | the history before and after the fourth election satisfies the whole invariant |
| RaftCoreSteps.VoteKeeps | internal/raft/raft.go:371-387 | granting a vote under the up-to-date check keeps the history invariant, in particular that an elected log holds everything already committed |
| RaftCoreSteps.ElectKeeps | internal/raft/raft.go:341-365 | recording a majority's winner and its log keeps the invariant |
| RaftCoreSteps.TruncateKeeps | internal/raft/log.go:140-152 | removing a conflicting suffix keeps the invariant: no acknowledged committed entry is in it |
| RaftCoreSteps.AckKeeps | internal/raft/raft.go:399-420 | acknowledging a matching prefix keeps the invariant |
| RaftVolatile.CountCommits | internal/raft/raft.go:606-628 | an index of the current term that a majority has acknowledged is committed in that term; the proof uses the current-term clause |
| RaftVolatile.AdvanceCommitOk | internal/raft/raft.go:606-628 | advancing the commit index only raises it, to a committed index, and changes nothing else |
| RaftVolatile.SendOk | internal/raft/raft.go:549-581 | a send keeps every in-flight record and frozen leader commit within what the leader's log covers |
| RaftHandlers.HandleStages | internal/raft/raft.go:153-188 | for every input there is a history for each point its batch can be cut (hard state, truncation, all) under which disk and node satisfy the invariant |
| RaftHandlers.AppendEntriesStages | internal/raft/raft.go:399-420 | the same for an AppendEntries request, accepted or rejected |
| RaftHandlers.CommitSpared | internal/raft/raft.go:413-418 | adopting a leader's entries leaves the committed prefix alone and sets the commit index to the larger of the two commits |
| RaftHandlers.CandidateWins | internal/raft/raft.go:389-397 | a candidate with a majority of votes meets the conditions the election record demands |
| Persistence.HandleUnsaved | internal/raft/raft.go:191-267 | after any input, what differs from storage is exactly the dirty hard state and the entries from the unstable index on |
| Persistence.SaveAgrees | internal/storage/storage.go:36-58 | saving what Ready hands out makes storage equal the node's hard state and whole log |
| Persistence.AdvanceSyncs | internal/raft/raft.go:209-231 | acknowledging that Ready leaves nothing unsaved |
| Persistence.TornSaveCases | internal/storage/disklog/disklog.go:608-635 | a cut batch leaves one of four disks: untouched, new hard state only, log cut at the unstable index, or everything |
| Persistence.AppendShape | internal/raft/log.go:112-138 | a leader's entries keep the log through the first conflict and continue with the leader's from there; with no conflict the log is unchanged |
| Persistence.FirstConflictIs | internal/raft/log.go:112-138 | the conflict position is the first entry the log lacks or holds with another term |
| RaftNode.Node.constructor | internal/raft/raft.go:110-133 | the node object starts in the state the cluster model's restart gives |
| RaftNode.Node.Tick | internal/raft/raft.go:136-150 | the field-by-field method computes exactly the state function the cluster theorems are about (`RaftSpec.TickNode`) |
| RaftNode.Node.Step | internal/raft/raft.go:153-176 | the field-by-field method computes exactly the state function the cluster theorems are about (`RaftSpec.StepMessage`) |
| RaftNode.Node.Propose | internal/raft/raft.go:180-188 | appends and replicates only as leader, returning the index after the old last one; state as `RaftSpec.ProposeData` |
| RaftNode.Node.Ready | internal/raft/raft.go:191-206 | hands out what is unsaved, unsent and committed but unapplied, and records it for Advance |
| RaftNode.Node.ReadyWithoutCapture | internal/raft/raft.go:233-247 | the batch alone, with no change |
| RaftNode.Node.Advance | internal/raft/raft.go:209-231 | clears exactly what the last Ready handed out, and nothing when none is outstanding |
| RaftNode.Node.StartElection | internal/raft/raft.go:285-314 | new term, own vote, and vote requests to every other peer; a lone node leads at once |
| RaftNode.Node.BecomeFollower | internal/raft/raft.go:316-329 | enters the term, forgetting vote and leadership |
| RaftNode.Node.BecomeFollowerSameTerm | internal/raft/raft.go:331-339 | yields in the same term without touching the vote |
| RaftNode.Node.BecomeLeader | internal/raft/raft.go:341-365 | probes every peer from before the NOOP, then appends the NOOP |
| RaftNode.Node.HandleRequestVote | internal/raft/raft.go:371-382 | the node object grants, stores and answers votes as `ClusterAnswers.VoteAnswered` says |
| RaftNode.Node.CandidateLogIsUpToDate | internal/raft/raft.go:384-387 | last term first, then last index |
| RaftNode.Node.HandleRequestVoteResponse | internal/raft/raft.go:389-397 | counts granted votes of the current term from peers and leads on a majority, as `ClusterAnswers.VoteCounted` says |
| RaftNode.Node.HandleAppendEntries | internal/raft/raft.go:399-420 | rejects malformed or unmatched requests, adopts matching ones, and answers |
| RaftNode.Node.AppendRequestLastIndex | internal/raft/raft.go:499-510 | the last index a request covers, if its entries are numbered on from its previous index |
| RaftNode.Node.HandleAppendEntriesResponse | internal/raft/raft.go:422-463 | only the response to the one in-flight request moves a peer's indexes; what it then commits and sends is what `ClusterDuties.MajorityIsCommitted` and `ClusterAnswers.AckAnswered` say |
| RaftNode.Node.RejectLowerTermRequest | internal/raft/raft.go:465-472 | answers a stale request with the current term |
| RaftNode.Node.SendAppend | internal/raft/raft.go:549-581 | one request in flight per peer; a resend repeats the frozen record |
| RaftNode.Node.EmitAppend | internal/raft/raft.go:583-601 | the message of an in-flight record |
| RaftNode.Node.BroadcastAppend | internal/raft/raft.go:528-535 | sends to every other peer |
| RaftNode.Node.BroadcastAvailableAppend | internal/raft/raft.go:540-547 | sends to every other peer with nothing in flight |
| RaftNode.Node.AdvanceCommit | internal/raft/raft.go:606-628 | commits the highest eligible index a majority holds, and reports whether it moved |
| RaftNode.Node.CountReplicas | internal/raft/raft.go:606-628 | how many peers are known to hold an index |
| RaftNode.Node.IsPeer | internal/raft/raft.go:630-633 | membership in the configuration |
| RaftLog.Log.RangeEntries | internal/raft/log.go:77-95 | the entries of a half-open interval, stopping at the end of the log |
| RaftLog.Log.AppendLocal | internal/raft/log.go:97-106 | one entry at the next index |
| RaftLog.Log.AppendFromLeader | internal/raft/log.go:112-138 | the in-place append equals the function of `Persistence.AppendShape`, and returns the first changed index |
| RaftLog.Log.TruncateFrom | internal/raft/log.go:140-152 | drops the entries at and above an index, for any log |
| RaftLog.Log.Term | internal/raft/log.go:49-58 | the term at an index, with (0, 0) before the first |
| Host.Process.Drive | sim/ready.go:184-243 | a process over byte-level storage, given any input and any crash plan, makes exactly one cluster step, with some outcome |
| Host.Process.ProcessReady | sim/ready.go:184-243 | Save, send, apply, Advance in that order, each crash point leaving what the cluster model says |
| Host.Process.Restart | sim/ready.go:88-136 | a restart from recovered bytes is the cluster's restart step |
| Host.Process.Crash | sim/ready.go:77-86 | losing the process keeps exactly its synced records |
| Host.Process.SendAll | internal/server/server.go:150-172 | every message of the batch is sent |
| Host.Process.ApplyAll | internal/server/server.go:150-172 | committed entries are applied in order up to the first refusal |
| Host.TornContiguous | sim/crashstorage.go:338-372 | every cut of a node's batch recovers to a log numbered from 1 |
| Storage.WholeBatchIsSave | internal/storage/storage.go:36-58 | a whole batch of records applied one by one is the plain Save |
| Storage.ContiguousCut | internal/storage/storage.go:36-58 | where the overlap scan cuts a log numbered from 1 |
| CrashStorage.MemStorage.Save | internal/storage/storage.go:36-58 | hard state replaced, overlap cut, entries appended |
| CrashStorage.MemStorage.Entries | internal/storage/storage.go:68-78 | an interval is returned exactly when it lies within the stored indexes |
| RecordCodec.DecodePayload | sim/crashstorage.go:338-372 | every record the storage writes decodes to itself |
| RecordCodec.EntriesRoundTrip | sim/crashstorage.go:399-433 | encoded entries decode to themselves, all of them and nothing after |
| RecordCodec.TornLogScans | sim/crashstorage.go:305-326 | cut at any byte, a record log scans as exactly its whole records, never as corrupt |
| RecordCodec.WholeWithinIs | sim/crashstorage.go:305-326 | how many records lie whole within a byte count |
| CrashStorage.ParseRecords | sim/crashstorage.go:305-326 | the parse loop folds exactly the whole records into a state and reports where they end, or reports corruption |
| CrashStorage.RecoveredState.Apply | sim/crashstorage.go:338-372 | applies one decoded record to the recovered state |
| CrashStorage.DecodeBody | sim/crashstorage.go:399-433 | the entry loop is the specified decoder on every input |
| CrashStorage.TruncateFromIndex | sim/crashstorage.go:388-397 | the entries below an index |
| CrashStorage.Disk.Save | sim/crashstorage.go:88-137 | under every crash directive the contents afterwards are the old ones plus a record prefix of the batch: all of it when Save succeeds, exactly the whole records in the retained bytes when it dies before the sync; the platter gains exactly the retained bytes, and directives are used up one by one |
| CrashStorage.EveryRecordPrefixCanSurvive | sim/crashstorage.go:227-245 | every record prefix of a batch is what some crash before the sync barrier leaves |
| RecordCodec.ScannedAreRecords | sim/crashstorage.go:305-336 | what a scan accepts is the encoding, checksums included, of exactly the records it returns, and only a torn record can follow |
| RecordCodec.PayloadAccepted | sim/crashstorage.go:338-374 | only the encoding of a record decodes to it |
| CrashStorage.Disk.Crash | sim/crashstorage.go:156-162 | an unarmed crash keeps the synced contents |
| CrashStorage.Disk.CrashIfArmed | sim/crashstorage.go:167-173 | fires once, keeping the synced contents |
| CrashStorage.Disk.Recover | sim/crashstorage.go:198-210 | the bytes left are exactly the surviving records, which replay to the contents |
| CrashStorage.SurvivingRecords | sim/crashstorage.go:227-245 | synced records plus any cut of the staged bytes scan as the synced records and the whole staged ones |
| CrashStorage.BatchBytes | sim/crashstorage.go:88-137 | the batch's bytes, part by part |
| Frames.SymbolsRoundTrip | internal/storage/disklog/disklog.go:686-714 | nibble symbols decode to the bytes they came from |
| Frames.UnsymbolsRoundTrip | internal/storage/disklog/disklog.go:698-714 | and every even run of symbols is the encoding of what it decodes to |
| Frames.DecodeFrameBody | internal/storage/disklog/disklog.go:441-493 | a frame's body decodes to its payload |
| Frames.DecodedBodyIs | internal/storage/disklog/disklog.go:441-493 | whatever body decodes is the encoding of its result: no other bytes are accepted |
| Frames.TornFramesScan | internal/storage/disklog/disklog.go:386-430 | frames cut at any byte scan as the whole frames before the cut, flagged torn exactly when something is left over |
| Frames.CutTailScans | internal/storage/disklog/disklog.go:386-430 | the same for synced frames followed by a cut batch |
| Frames.AcceptedAreFrames | internal/storage/disklog/disklog.go:386-430 | for arbitrary bytes: what a scan accepts is exactly the encoding of the payloads it returns |
| Frames.EncodeSymbols | internal/storage/disklog/disklog.go:686-696 | writes the symbols into their place in the buffer and nothing else |
| Frames.BuildFrame | internal/storage/disklog/disklog.go:640-684 | marker, symbols and terminator of one payload |
| Frames.FindEnd | internal/storage/disklog/disklog.go:386-430 | the first byte that is not a symbol |
| Frames.NextFrame | internal/storage/disklog/disklog.go:386-430 | the frame at the front: bad, unterminated or whole |
| DiskLog.BatchReplays | internal/storage/disklog/disklog.go:510-552 | an accepted batch replays, record by record, to the plain Save |
| DiskLog.CutSegmentReplays | internal/storage/disklog/disklog.go:386-430 | the last segment cut at any byte of its final batch replays to a record prefix and is never corrupt |
| DiskLog.ClosedReplays | internal/storage/disklog/disklog.go:333-362 | closed segments replay to all their records |
| DiskLog.CrashRecovers | internal/storage/disklog/disklog.go:333-362 | all segments with the last batch cut at any byte recover to the state after some prefix of that batch |
| DiskLog.ReopenRecovers | internal/storage/disklog/disklog.go:127-168 | from every state a log can reach, failed or not, reopening recovers the in-memory mirror plus the longest record prefix of the failed batch that the surviving bytes hold |
| DiskLog.Reopen | internal/storage/disklog/disklog.go:127-168 | a new process over the files of an old one, of whose unfinished batch any bytes survived, has every invariant of a running log and the old mirror plus the longest record prefix of that batch those bytes hold; so the results hold across incarnations |
| DiskLog.Log.Reopened | internal/storage/disklog/disklog.go:333-362 | files that hold whole records only, and their replay, make a running log |
| DiskLog.Log.Save | internal/storage/disklog/disklog.go:175-220 | which calls are unusable, rejected, failed or saved, each exactly; the mirror becomes the plain Save or stays; the files gain exactly the bytes written, in a fresh segment exactly when the batch would overflow a non-empty one |
| DiskLog.Log.RotateIfNeeded | internal/storage/disklog/disklog.go:279-301 | a fresh segment is begun exactly when the batch would push a non-empty one past the rotation size, and only then can it fail |
| DiskLog.Log.WriteBatch | internal/storage/disklog/disklog.go:175-220 | a failed write or sync leaves the mirror alone and the partial batch behind the failure latch |
| DiskLog.Log.EncodeBatch | internal/storage/disklog/disklog.go:613-635 | hard state, truncation and entries as frames, refused only when a payload does not fit |
| DiskLog.ReplayFile | internal/storage/disklog/disklog.go:386-430 | the segment loop is the specified replay on every input |
| DiskLog.RecoverFiles | internal/storage/disklog/disklog.go:333-362 | all segments in order, only the last allowed a torn tail |
| KWayMerge.Push | internal/lsm/compaction.go:214-225 | sift-up keeps the heap and adds one item |
| KWayMerge.Pop | internal/lsm/compaction.go:227-249 | removes the least item and keeps the heap |
| KWayMerge.RootIsLeast | internal/lsm/compaction.go:251-259 | nothing in a heap is less than its root |
| KWayMerge.Merger.Next | internal/lsm/compaction.go:162-199 | emits the newest record of the least remaining key and drops that key everywhere, or reports a clash only when one exists |
| KWayMerge.MergeTables | internal/lsm/compaction.go:145-199 | the merge succeeds if and only if no two records disagree on one key and sequence number, and then yields each distinct key once, ascending, at its newest record |
| SizeTiers.TableSizeClass | internal/lsm/compaction.go:34-48 | class 0 below the base size, else the class whose half-open interval of factor 4 holds the size, for every 64-bit size; no class is above 26 |
| SizeTiers.CompactionConserves | internal/lsm/compaction.go:331-385 | four tables of one tier replaced by one of the next keep the total weight, the sum of 4^tier, and leave three tables fewer |
| SizeTiers.CountsAreDigits | internal/lsm/compaction.go:284-300 | when no tier holds four tables, the count of each tier is that base-4 digit of the weight |
| SizeTiers.SettledIsSmall | internal/lsm/compaction.go:284-300 | then there are at most 3 * (1 + floor(log4 W)) tables |
| SizeTiers.TierFits | internal/lsm/compaction.go:284-300 | with 64-bit file numbers no table ever reaches tier 58, so the tier limit of compaction cannot be met |
| SizeTiers.LightFlush | internal/lsm/engine.go:407-413 | a flush takes a new file number and adds at most 4^26 to the weight, so the weight stays below 4^26 for every number used |
| SizeTiers.SelectInputs | internal/lsm/compaction.go:305-329 | finds inputs exactly when some tier holds four: four of the lowest such tier, none of whose other tables has a smaller file name |
| SizeTiers.SortSorts | internal/lsm/compaction.go:490-493 | the published list is in file-name order |
| SizeTiers.NamesAreNotNumbers | internal/lsm/compaction.go:305-329 | name order and number order differ from file 1000000 on |
| Memtable.FindIs | internal/lsm/skiplist.go:134-146 | a list lookup finds the key's record exactly when there is one |
| Memtable.InsertIs | internal/lsm/skiplist.go:88-129 | an insertion keeps other keys and leaves the key at its newest version |
| Memtable.InsertAscends | internal/lsm/skiplist.go:88-129 | the list stays strictly ascending |
| SkipList.RandomHeight | internal/lsm/skiplist.go:56-62 | for every stream of draws: one level per leading zero draw, from 1 to the cap |
| SkipList.SkipList.Put | internal/lsm/skiplist.go:88-129 | for every stream of tower heights, splicing is list insertion; it applies if and only if the key is absent or the sequence number strictly newer, and every level stays the sublist of the towers that reach it |
| SkipList.SkipList.Get | internal/lsm/skiplist.go:134-146 | the level descent finds what a list lookup finds |
| SkipList.SkipList.ForEach | internal/lsm/skiplist.go:151-157 | visits every record once, in strictly ascending key order |
| SkipList.SkipList.Search | internal/lsm/skiplist.go:88-97 | stops at the last tower before the key and notes, on every level, the tower a new one must follow |
| SkipList.SkipList.Splice | internal/lsm/skiplist.go:124-127 | after the loop every level, with the new tower in place, is again the sublist of the towers that reach it |
| SkipList.SplicedLinks | internal/lsm/skiplist.go:124-127 | redirecting the noted towers is exactly what inserting into every level's list needs |
| EngineModel.CompactionCovers | internal/lsm/compaction.go:331-385 | replacing tables by their merge loses no key's newest record, whatever else is searched beside them |
| EngineModel.NewestWrite | internal/lsm/engine.go:615-654 | the newest record in the sources is the newest write |
| EngineModel.PromisesFlush | internal/lsm/engine.go:361-434 | moving the oldest frozen memtable to a table raises the durable mark to its watermark and loses nothing |
| EngineModel.PromisesFreeze | internal/lsm/engine.go:347-359 | a frozen memtable's watermark bounds what it may miss |
| EngineModel.PromisesWriteIff | internal/lsm/engine.go:169-231 | a write keeps the durable marks' promises if and only if it lies above each mark or what the mark vouches for already holds a record of its key at least as new |
| Engine.Engine.Read | internal/lsm/engine.go:658-670 | for every history of writes, freezes, flushes, compactions and I/O failures: the value of the key's newest write, tombstones as absent |
| Engine.Engine.Lookup | internal/lsm/engine.go:615-654 | the key's newest write among active, frozen and tables |
| Engine.Engine.Write | internal/lsm/engine.go:205-252 | adds one write to the history on every path; the write stays in the active memtable unless that reaches the flush threshold, and then everything is flushed through the applied index; so the active memtable's size, kept up to date by differences, always stays below the threshold; keeps all invariants and a fresh write's durability, uses up a bounded number of file numbers, and succeeds whenever nothing fails, numbers are to spare and the formats have room |
| Engine.Engine.Put | internal/lsm/engine.go:169-184 | the same for a value; a closed or poisoned engine changes nothing and refuses |
| Engine.Engine.Delete | internal/lsm/engine.go:188-203 | the same for a tombstone |
| Engine.Engine.Freeze | internal/lsm/engine.go:347-359 | the active memtable becomes the newest frozen one; reads, durability and the directory's link to the engine are unchanged |
| Engine.Engine.FlushTable | internal/lsm/engine.go:361-434 | with a failure or crash at any file operation: the memtable is in a table named by the manifest, in the size class of the table's bytes, with the flushed index at its watermark; or nothing changed; or the edit's fate is unknown and the engine is poisoned between exactly those two states; without failures it succeeds if a number is left and the formats have room |
| Engine.Engine.FlushOldest | internal/lsm/engine.go:361-434 | the same followed by compaction; without failures it succeeds if file numbers are to spare and the formats have room |
| Engine.Engine.FlushThrough | internal/lsm/engine.go:310-345 | on success everything up to the index is in tables and nothing is left in memory; without failures, with file numbers to spare and room in the formats, it succeeds exactly for the targets that were applied, do not lie behind and cover every pending write; how many numbers it can use is bounded |
| Engine.Engine.CheckTarget | internal/lsm/engine.go:317-332 | accepts exactly the applied targets at or above every pending write |
| Engine.Engine.MoveMark | internal/lsm/engine.go:339-343 | the edit without files: the flushed index and the manifest's move together, stay together, or the engine is poisoned between the two; without failures it succeeds if the formats have room |
| Engine.Engine.CompactInputs | internal/lsm/compaction.go:331-385 | on success exactly the four inputs have given way to their merge, one tier up under the next file number; whatever fails, every lookup, the total weight and the durable marks are unchanged and the manifest names the engine's tables or is one known edit away; without failures it succeeds if a number is left and the formats have room |
| Engine.Engine.PublishOutput | internal/lsm/compaction.go:387-518 | the merged table replaces its inputs in memory exactly when its edit is durable; a refused output or the replaced inputs join the files to be removed; without failures it commits if the formats have room |
| Engine.Engine.Reconcile | internal/lsm/compaction.go:529-570 | files waiting to be removed are never named ones; what could not be removed waits on, and without failures none is left |
| Engine.Engine.CompactAll | internal/lsm/compaction.go:284-300 | terminates; on success no tier holds four tables, at the same weight and with the same reads; the tier limit is never met; without failures it succeeds if file numbers are to spare and the formats have room |
| Engine.Engine.AdvanceApplied | internal/lsm/engine.go:260-269 | succeeds exactly when open, not poisoned and not moving back |
| Engine.Engine.Reopened | internal/lsm/engine.go:122-164 | an engine over recovered tables is valid, durable and tied to its directory, and represents the writes those tables held |
| Engine.Open | internal/lsm/engine.go:122-164 | opening a directory any process left, itself interrupted anywhere, leaves it restartable; the engine is valid, durable and tied to it, and holds exactly the writes at or below the flushed index of the state before or after the interrupted edit; without failures it succeeds |
| Engine.LeftRestarts | internal/lsm/engine.go:436-471 | wherever a durable engine stops, poisoned or not, its directory is one `Engine.Open` starts from |
| Engine.Marks | internal/lsm/engine.go:310-345 | no watermark, pending or of uncertain fate, is above what was applied or flushed |
| EngineState.FlushedSurvives | internal/lsm/engine.go:122-164 | the tables alone represent every write at or below the flushed index, so a crash loses none of them |
| EngineState.InputsMerge | internal/lsm/compaction.go:331-385 | compaction inputs drawn from one history never clash |
| EngineState.FlushSnapshot | internal/lsm/engine.go:361-434 | a flush keeps the order of the lists, what they represent and the marks' promises, and adds its tier's weight once |
| EngineState.CompactSnapshot | internal/lsm/compaction.go:331-518 | a compaction keeps the same, at the same weight and with three tables fewer |
| EngineState.MarkSnapshot | internal/lsm/engine.go:339-343 | with nothing in memory any higher mark keeps its promise |
| EngineState.WriteSnapshot | internal/lsm/engine.go:211-231 | a fresh write keeps the marks' promises |
| EngineDirectory.FlushEnds | internal/lsm/engine.go:361-471 | after a flush attempt the directory is tied to the state before, to the state after, or unsure between the two |
| EngineDirectory.CompactEnds | internal/lsm/compaction.go:387-518 | the same for a compaction, with the files it leaves to be removed |
| EngineDirectory.MarkEnds | internal/lsm/engine.go:436-471 | the same for an edit without files |
| EngineDirectory.FlushAcceptable | internal/lsm/manifest.go:83-150 | the manifest accepts every flush's edit |
| EngineDirectory.CompactAcceptable | internal/lsm/manifest.go:83-150 | and every compaction's |
| FormatRoom.SmallIsRoomy | internal/lsm/sstable.go:77-139 | writes that take at most 64 MiB together have room in the formats, with any edit codec that takes at most 2 GiB besides twice an edit's keys |
| FormatRoom.RoomyTable | internal/lsm/manifest.go:161-195 | with room, every table of the writes and the edit that names it fit, whatever 64-bit numbers and 32-bit tier they carry |
| EditCodec.PlainIsLawful | internal/lsm/manifest.go:161-242 | a concrete edit codec whose decoder inverts its encoder on every edit |
| EditCodec.PlainHasRoom | internal/lsm/manifest.go:161-242 | formats with that codec are lawful and have room for any writes of at most 64 MiB together: the success clauses speak of engines that exist |
| EngineDirectory.CrashRestartable | internal/lsm/fs_sim.go:510-558 | a crash keeping any unsynced prefix takes a restartable directory to a restartable one |
| EngineDirectory.FlushReflects | internal/lsm/engine.go:419-434 | the committed edit and the engine's new table list name the same tables |
| EngineDirectory.CompactReflects | internal/lsm/compaction.go:454-518 | the same for a compaction's edit |
| EngineDirectory.RebuiltTables | internal/lsm/engine.go:494-503 | tables rebuilt from the manifest are the old ones and represent exactly the writes at or below the flushed index |
| EngineDirectory.ListTables | internal/lsm/manifest.go:484-495 | every named table once, in file-name order |
| EngineDirectory.NextFileNumber | internal/lsm/engine.go:482-492 | one past the highest number in use, skipping the last number there is |
| KvMachine.MapStateMachine.Step | internal/statemachine/mapsm/mapsm.go:44-80 | the simple machine: dedup, execution, applied index, and which entries are refused |
| KvMachine.MapStateMachine.Run | internal/statemachine/mapsm/mapsm.go:82-97 | executes one command on the map; what its answers mean over a log is `KvHistory.ReadAnswered` and `KvHistory.WriteAnswered` |
| KvHistory.ReadAnswered | internal/statemachine/mapsm/mapsm.go:82-97 | for every accepted log, a GET newer than every earlier command of its client answers the value of the log's writes before it, found exactly when the latest executed write to the key is a PUT |
| KvHistory.WriteAnswered | internal/statemachine/mapsm/mapsm.go:44-97 | an executed PUT or DELETE, and an entry without a command, answers the empty result |
| KvHistory.RepeatAnswered | internal/statemachine/mapsm/mapsm.go:60-68 | a command no newer than an earlier one of its client makes no write, changes no state, and gets the answer of that client's last executed command |
| KvHistory.WritesAreExecuted | internal/statemachine/mapsm/mapsm.go:60-97 | the writes of an accepted log are exactly those of its executed PUT and DELETE commands, each at its own index |
| KvHistory.MapHoldsLatest | internal/statemachine/mapsm/mapsm.go:82-97 | after every accepted log the map holds for each key what the latest executed write to it says |
| KvHistory.TableRemembers | internal/statemachine/mapsm/mapsm.go:60-80 | the deduplication table holds for each client its newest command's sequence number and the answer it was given, and nothing for clients without one |
| KvHistory.AcceptedIff | internal/statemachine/mapsm/mapsm.go:44-97 | the machine accepts a log exactly when every entry is empty, a known command, or a repeat |
| KvMachine.MapReflectsWrites | internal/statemachine/mapsm/mapsm.go:82-97 | after any log, a key's value in the map is its newest write |
| KvMachine.WritesDistinct | internal/statemachine/mapsm/mapsm.go:44-80 | each log index makes at most one write |
| StateMachine.Machine.Apply | internal/lsm/statemachine.go:129-180 | whatever the engine kept from before the crash, an applied entry gives the map machine's result, values, dedup table and applied index; whenever nothing fails, file numbers are to spare and the formats have room, it is applied if and only if the map machine accepts it; failed or not, the engine and either version of its directory hold writes of the log only, all of them up to the flushed index |
| StateMachine.Machine.Run | internal/lsm/statemachine.go:188-222 | the same for one command, reading rebuilt values during replay and the engine afterwards, so that `KvHistory` describes its answers too; without failures, with numbers and room, it succeeds exactly for executable commands |
| StateMachine.Machine.WriteEntry | internal/lsm/statemachine.go:188-222 | a replayed write at or below a durable mark was made before and a new one lies above every mark, so durability survives every replay |
| StateMachine.Machine.BeginReplay | internal/lsm/statemachine.go:69-83 | accepts an empty interval or one from index 1, and then the machine is ready to apply |
| StateMachine.Machine.Read | internal/lsm/statemachine.go:238-246 | the newest write the engine holds, which once the replay is over is the map machine's value of every key |
| StateMachine.Machine.AdvanceApplied | internal/lsm/statemachine.go:224-233 | succeeds exactly when the index was applied before or the engine is open, not poisoned and not behind; then both indexes advance, else neither |
| StateMachine.ReplayLog | internal/lsm/statemachine.go:69-180 | after any crash and reopening, replaying the whole retained log gives, entry by entry, the map machine's answers and its final state, and leaves the engine holding exactly the log's writes; whenever nothing fails, two file numbers an entry are left and the formats have room, it succeeds if and only if the map machine accepts every entry |
| StateMachine.NewestIsMap | internal/lsm/statemachine.go:188-222 | the newest write of a key over a log is the map machine's value |
| StateMachine.HoldingFresh | internal/lsm/statemachine.go:188-222 | the next entry's write was made before or lies above every durable mark, and clashes with nothing |
| LsmRecovery.Survive | internal/lsm/statemachine.go:53-180 | the whole storage story by induction: any number k of processes, each opening the directory, replaying and applying a log of n entries with any failures at any file operations, and ending by failure, exit or a crash that keeps any unsynced prefix; then one process that meets no failure has the map machine's state and answers for the whole log, if and only if the map machine accepts it, provided (k + 1)(2n + 1) is below 2^64 - 1 and the formats have room |
| LsmRecovery.SurvivePlain | internal/lsm/statemachine.go:53-180 | the same with every format given: for a log whose records take at most 64 MiB together the undisturbed process succeeds if and only if the map machine accepts the log |
| LsmRecovery.LiveThrough | internal/lsm/engine.go:473-480 | after k processes on a log of n entries at most 1 + k(2n + 1) file numbers are used up or owed to compactions |
| LsmRecovery.Live | internal/lsm/engine.go:122-164 | one process, from opening to any end, leaves a restartable directory that remembers everything tried so far, and uses up at most two file numbers an entry and one more |
| LsmRecovery.Serve | internal/lsm/statemachine.go:69-180 | a process applying entries until one fails leaves its engine recorded in the log |
| LsmRecovery.LeftRemembers | internal/lsm/statemachine.go:100-118 | what a stopped process leaves holds the log's writes up to the flushed index of either version, and no others |
| SimFs.SimFS.Crash | internal/lsm/fs_sim.go:510-558 | live names revert to synced ones and each file keeps its synced bytes and its unsynced changes as far as the budget pays, which `SimFs.SurviveIs` counts byte by byte |
| SimFs.SurviveUntouched | internal/lsm/fs_sim.go:510-558 | a file with no unsynced change keeps its synced bytes under every budget |
| SimFs.SurviveIs | internal/lsm/fs_sim.go:510-558 | for every file: its image after a crash is its synced bytes with exactly those of its changes that the budget reaches, each cut to the bytes left after the changes before it, of all files, in order; without a budget, all of them |
| SimFs.SurviveOne | internal/lsm/fs_sim.go:560-591 | a file with one unsynced change, at any position, keeps exactly the bytes of it that the budget pays for after the byte counts before it |
| SimFs.CrashTearsAppend | internal/lsm/fs_sim.go:510-591 | of an append to a synced file a crash keeps just the bytes paid for, and after a sync all of them |
| SimFs.CrashUndoesNames | internal/lsm/fs_sim.go:545-553 | a name made or removed since the directory was synced is undone by a crash; once synced it is kept |
| SimFs.EveryFailureOccurs | internal/lsm/fs_sim.go:444-485 | every operation can fail before or after its effect, by an error or by a crash with any budget, and reports success only when it had its effect |
| SimFs.SimFS.Create | internal/lsm/fs_sim.go:279-296 | a new empty file under a live name, or an error that changes nothing |
| SimFs.SimFS.Append | internal/lsm/fs_sim.go:658-682 | a write is visible at once and durable only after a sync, under every fault |
| SimFs.SimFS.Sync | internal/lsm/fs_sim.go:684-694 | makes one file's bytes durable and clears its unsynced changes |
| SimFs.SimFS.SyncDir | internal/lsm/fs_sim.go:332-351 | makes the live names durable |
| SimFs.SimFS.Remove | internal/lsm/fs_sim.go:389-402 | drops a live name and reports a missing one; the synced name stays until the directory is synced |
| SimFs.SimFS.Truncate_ | internal/lsm/fs_sim.go:696-724 | cuts or zero-extends, durable only after a sync |
| Manifest.State.ApplyEdit | internal/lsm/manifest.go:83-150 | applies an acceptable edit and refuses every other, leaving the state alone |
| Manifest.State.CheckEdit | internal/lsm/manifest.go:83-150 | acceptable means: flushed index not lowered, each removal named once and present, each addition new, non-empty and in key order |
| Manifest.ExtendsLogIff | internal/lsm/manifest.go:83-150 | an edit extends a valid log exactly when it says something, does not lower the flushed index, removes only files the log references and adds only ones it does not, none twice, each described as a non-empty table with ordered bounds |
| Manifest.ReplayReferences | internal/lsm/manifest.go:83-150 | a replayed log references exactly the files some edit added and no later edit removed, each with the metadata it was added with |
| Manifest.ReplayMarks | internal/lsm/manifest.go:83-150 | over a valid log the flushed index never falls and is the last edit's, and every edit counts once |
| Manifest.LoadTorn | internal/lsm/manifest.go:244-279 | a manifest whose last frame is cut at any byte loads as the version before that edit, never as corrupt |
| Manifest.LoadWhole | internal/lsm/manifest.go:244-279 | whole frames load as the version after all their edits |
| Manifest.LoadBytes | internal/lsm/manifest.go:244-279 | the replay loop is the specified load on every input |
| LsmDisk.CrashSettled | internal/lsm/fs_sim.go:510-558 | between commits, a crash keeping any unsynced bytes changes no referenced table and not the manifest |
| LsmDisk.CrashAppendingAt | internal/lsm/manifest.go:445-482 | a crash while an edit is being appended leaves exactly the bytes of its frame the budget pays for, and every table of both versions |
| LsmDisk.EveryPrefixCanSurvive | internal/lsm/manifest.go:445-482 | every byte prefix of the appended frame is what some crash leaves in the manifest |
| LsmDisk.TornEnds | internal/lsm/manifest.go:348-391 | no byte of the frame is the old version, all of it the new one |
| LsmDisk.AppendCommits | internal/lsm/manifest.go:445-482 | the synced append is the new version |
| LsmStore.Store.WriteTable | internal/lsm/engine.go:361-405 | whatever fails, the old version stays in place; on success the new file is complete, synced and named |
| LsmStore.Store.CommitEdit | internal/lsm/manifest.go:445-482 | under every fault the directory is at the old version, at the new one, or recoverable to one of them, and memory follows only a certain commit; without faults it commits exactly the acceptable edits |
| LsmStore.Store.RemoveFiles | internal/lsm/compaction.go:529-570 | names the version no longer refers to are removed or stay on the retry list, the directory stays dirty until synced, and no named file is touched; without faults none is left |
| LsmStore.Store.Publish | internal/lsm/compaction.go:387-518 | writing a table and committing its edit, with a fault or crash at any operation: refused with the directory at the old version, committed at the new one, or recoverable to either; without faults it commits exactly when the table was built and the edit is acceptable |
| LsmStore.CrashRecoverable | internal/lsm/fs_sim.go:510-558 | a crash keeping any unsynced prefix takes a recoverable directory to a recoverable one |
| LsmStore.RecoveryFinds | internal/lsm/manifest.go:348-391 | a recoverable directory's manifest loads as exactly the edits before, or with, the interrupted one |
| LsmStore.Open | internal/lsm/engine.go:122-164 | reopening, itself interrupted anywhere, stays recoverable; without faults it succeeds at the version before or after the interrupted edit, reads back every referenced table exactly, and removes every other file |
| LsmStore.TrimTail | internal/lsm/manifest.go:410-425 | cutting off a torn frame, interrupted anywhere, stays recoverable |
| LsmStore.SyncRecovered | internal/lsm/engine.go:510-523 | every table, the names and the manifest are synced before anything is served; interrupted anywhere, the directory stays recoverable |
| LsmStore.ReadTables | internal/lsm/engine.go:494-570 | every referenced table decodes and passes its metadata checks; only a failing read refuses one |
| LsmStore.Orphans | internal/lsm/engine.go:572-604 | exactly the live files the version does not name |
| LsmStore.RemoveOrphans | internal/lsm/engine.go:572-604 | afterwards exactly the named tables and the manifest have names |
| SSTable.LookupIsScan | internal/lsm/sstable.go:429-461 | for every file that validates, not only written ones, with the Bloom filter on or off: lookup through filter, key bounds, binary search and one block equals a first-match scan of all records |
| SSTable.ScanIsNewest | internal/lsm/sstable.go:423-461 | that first match is the key's newest record, and a miss means the key is absent |
| SSTable.WrittenReads | internal/lsm/sstable.go:77-139 | a written file opens and reads back as exactly its entries |
| SSTable.WrittenLookup | internal/lsm/sstable.go:429-461 | so a lookup in a written table never fails and finds the newest version of the key or its absence |
| SSTable.SSTableWriter.Add | internal/lsm/sstable.go:53-72 | accepts a record exactly when it follows the last in key then descending sequence order |
| SSTable.SSTableWriter.Finish | internal/lsm/sstable.go:77-139 | fails exactly when closed, a record does not fit, the filter size overflows or a part exceeds its length field; otherwise the bytes read back as the entries |
| SSTable.SmallTableFits | internal/lsm/sstable.go:77-139 | up to 64 MiB of records always make a table |
| SSTable.BuildDataBlocks | internal/lsm/sstable.go:146-172 | fails exactly when a record does not fit; the blocks concatenate to the entries, no key spans two, only versions of one key carry a block past its target, and a block ends only where the next record would overflow it |
| SSTable.NextBlock | internal/lsm/sstable.go:152-170 | the inner loop's block and where it ends |
| SSTable.Get | internal/lsm/sstable.go:429-461 | the binary search and block scan compute the specified lookup |
| SSTable.SearchIndex | internal/lsm/sstable.go:436-436 | the number of blocks that start at or before the key |
| SSTable.AllEntries | internal/lsm/sstable.go:488-530 | every block in order, or nothing if any check fails |
| SSTable.ReadChecks | internal/lsm/sstable.go:488-530 | whatever reads back is sorted, passes the filter, and has the count and bounds of the footer; every indexed block is part of it |
| SSTable.BlockAccepted | internal/lsm/sstable.go:535-553 | a block is read only with the checksum its writer would have put after it |
| SSTable.FooterAccepted | internal/lsm/sstable.go:350-380 | a file is opened only if it ends in a footer its writer could have put there |
| SSTable.FilterFor | internal/lsm/sstable.go:107-110 | the filter of a table has exactly the bits its keys probe |
| SSTable.OpenedOk | internal/lsm/sstable.go:350-421 | an opened table has an ascending index |
| SSTable.BlocksSorted | internal/lsm/sstable.go:488-530 | whatever validates is sorted by key and descending sequence, and the filter denies none of it |
| SSTable.FooterReads | internal/lsm/sstable.go:312-334 | a footer reads back as its metadata |
| SSTable.EncodeIndex | internal/lsm/sstable.go:252-267 | the index's bytes |
| TableFormat.RecordRoundTrip | internal/lsm/sstable.go:174-236 | a record followed by anything decodes to itself and leaves the rest |
| TableFormat.PayloadDecodes | internal/lsm/sstable.go:195-236 | a sorted block decodes to its records |
| TableFormat.DecodeRecords | internal/lsm/sstable.go:195-236 | the record loop is the specified decoder on every input, order check included |
| TableFormat.IndexRoundTrip | internal/lsm/sstable.go:252-299 | an ascending index decodes to itself |
| TableFormat.ParseIndex | internal/lsm/sstable.go:269-299 | the index loop is the specified decoder on every input |
| TableFormat.UvarintRoundTrip | internal/lsm/sstable.go:576-580 | every 64-bit length is read back, with what follows it |
| Bloom.BloomFilter.Add | internal/lsm/bloom.go:70-79 | sets exactly the key's seven bits |
| Bloom.BloomFilter.MayContain | internal/lsm/bloom.go:82-94 | true exactly when all seven bits are set |
| Bloom.AddedIsHeld | internal/lsm/bloom.go:70-94 | no false negatives: an added key is held, and stays held whatever is added, for every pair of hashes |
| Bloom.PassesIff | internal/lsm/bloom.go:70-94 | a filter built from some keys lets a key pass exactly when each of its probes is a probe of one of them; an empty filter lets none pass |
| Bloom.FilterAccepted | internal/lsm/bloom.go:114-125 | only the encoding of a filter decodes to it |
| Bloom.BloomRoundTrip | internal/lsm/bloom.go:97-125 | a filter reads back as itself |
| Bloom.BloomBits | internal/lsm/bloom.go:39-56 | ten bits a key, at least eight, refused only on overflow |
| TablePublish.BuildTable | internal/lsm/engine.go:379-400 | every record through the writer; the file reads back as exactly the content, and is refused only where the format has no room |
| Waiters.DeskKeepsEveryFate | internal/server/waiter.go:80-167 | over every interleaving of register, cancel, apply and fail-stop: what a waiter received, and whether it still waits, is what the events after its registration say about its slot alone |
| Waiters.DeliveredOnce | internal/server/waiter.go:133-167 | on any run a waiter is sent at most one outcome, by the first event that settles its wait: its result if and only if its own index and term commit, a stale notice if and only if another term commits there, the error if and only if the node stops on it, nothing if and only if it is cancelled or its slot registered again; until then it waits |
| Waiters.NobodyStranded | internal/server/waiter.go:121-167 | a waiter neither cancelled nor displaced is off the desk after an apply at its index or a fail-stop, with the one outcome of the first of them |
| Requests.EveryRequestHeard | internal/server/server.go:96-113 | over every run, with waiters registered where the leader's proposals were promised, no request displaces another: one that is not cancelled hears of the first commit at its index or fail-stop, its result exactly when its own term committed, a stale notice when another did, the error when the node stopped |
| Waiters.SecondRegistrationStrands | internal/server/waiter.go:80-93 | registering again at an occupied slot strands the earlier waiter whatever happens next, so one registration per slot is needed |
| Waiters.KVApplier.Register | internal/server/waiter.go:80-93 | adds one waiter; both maps stay consistent |
| Waiters.KVApplier.Cancel | internal/server/waiter.go:98-106 | removes only that waiter, sending nothing; harmless after it resolved |
| Waiters.KVApplier.RemoveFromIndex | internal/server/waiter.go:110-119 | keeps the per-index sets equal to the waiting slots |
| Waiters.KVApplier.Fulfill | internal/server/waiter.go:148-167 | resolves every waiter at the index, the matching term with the result and the others stale, as `Waiters.DeliveredOnce` tells each of them; none is left there, and no send can block |
| Waiters.KVApplier.FailStop | internal/server/waiter.go:133-141 | resolves everyone with the error and empties both maps |
| Waiters.KVApplier.Apply | internal/server/waiter.go:67-74 | the state machine's answer goes to every waiter at the index; a refused entry resolves nobody; without failures, with numbers and room, exactly the entries the map machine refuses are refused |

## Left out

- RaftFigure8.OldTermsMustNotBeCounted: the history that breaks the variant commit rule is given as a history of votes, elections and stored logs; the schedule of ticks and messages that leads to it is not spelled out.
- Engine.Engine.Write: the memtable is the list that `SkipList.SkipList` is proved to maintain, not the tower object itself; update in place and aliasing are modelled in `SkipList` only.
- KWayMerge.Push: the heap is a sequence handed on by value rather than one slice shared by the iterator's methods.
- Engine.Engine.Lookup: tables are read as the contents that were validated when they were opened; a failing read during a lookup or a merge is not modelled.
- Engine.Engine.Reconcile: file handles, and a failure to close one, are not modelled; nor are the counters and test hooks.
- EditCodec.PlainIsLawful: the codec is a plain one, not protobuf's wire format; the other results hold for every lawful codec.
- LsmStore.Format: the manifest of an empty directory is created without failures.
- DiskLog.Log.Save: file names and directory entries are not modelled; segments are a sequence in numeric order.
- DiskLog.Reopen: the new process uses the old one's rotation size, and its recovery syncs do not fail.
- RaftNode.Node.Tick: the 64-bit wrap of terms, indexes and tick counters is not modelled.
- Host.Process.Drive: crash counters, event records and the LSM crash schedule of the simulator are not modelled.
- Waiters.KVApplier.Apply: the leader hint and the host's stopped flag are not modelled.
- Bloom.AddedIsHeld: the FNV-1a bit operations are not modelled; the hashes are any two functions.
- The peer-sorting library call, the standard library's binary search signature and varint routines are modelled by what they compute.
- Closing an engine, its process-local abandonment and the read-only accessors.
- Liveness under a fair scheduler, election timing and message delay distributions, which depend on fairness the code does not express; that a way forward always exists is `ClusterProgress.AlwaysAWayForward`.
- Snapshots and log compaction of the Raft log, which are stubs in the code.
- gRPC transport, generated code, command-line programs, real-file adapters, benchmarks and plots.
- The linearizability checker, fault-schedule loading, harness counters and state hashes.
- The early end of a replay on the host's request, which no host uses.
