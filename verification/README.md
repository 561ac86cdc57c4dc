# etcd: Raft, persistence and the hierarchical store, verified

A Dafny model of the parts of etcd that its guarantees rest on, with proofs about whole runs.

* **Raft** (`raft/`). `RaftLog.dfy` and `Raft.dfy` are the log and the node as classes that
  are updated in place; `RaftLogModel.dfy` and `RaftNodeModel.dfy` say what each call does to
  a value. `Cluster.dfy` joins a fixed set of nodes by a network that may lose, repeat and
  reorder messages; nodes may stop and start again from what they had. `RaftSafety.dfy` proves
  the safety properties of Raft over every run, and `ConfSafety.dfy` that of configuration
  entries. `AckCounterexample.dfy` shows the run in which one of them fails without its premise,
  `VoteExample.dfy` one in which a vote changes. `StepLaws.dfy` says what each message does, by
  the fields of the node and of what it sends. On these laws rest `Replication.dfy` and
  `Progress.dfy`: from every state reached, any majority can elect a leader and commit.
  `Compaction.dfy` and `SendSafety.dfy` treat compacted logs and sending from them.
* **Persistence** (`raft/raftpb`, `wal/`, `etcdserver/server.go`). `Wire.dfy`,
  `Unmarshal.dfy`, `RaftCodec.dfy`, `MessageCodec.dfy`, `Marshal.dfy` and
  `MarshalMessage.dfy` are the protobuf codecs over bytes, which `WireBytes.dfy` spells out tag
  by tag; `Checksum.dfy`, `WalModel.dfy`, `WalHistory.dfy`, `WalFrames.dfy` and `Wal.dfy` the
  write-ahead log down to its frames and checksums, and `WalChecks.dfy` says which logs can be
  read;
  `ServerModel.dfy`, `ServerSafety.dfy` and `EtcdServer.dfy` the loop that saves, applies and
  compacts, and starting again from disk. `ServerCluster.dfy` puts such servers on a network:
  they compact, crash and restart at any time, and send only what is saved; what they have
  saved is shown to be a run of `Cluster.dfy`.
* **Store** (`store/`). `StoreNode.dfy` holds the tree's nodes and the expiry heap,
  `Store.dfy` the tree with its operations, `EventHistory.dfy` the ring of events,
  `WatcherHub.dfy` the watchers. `StoreModel.dfy` is the same store as a flat map, and
  `StoreRuns.dfy` speaks of every sequence of operations on it; `StoreLaws.dfy` says when each
  request succeeds and what it leaves behind, and what clients may rely on.

Objects that the source updates in place are classes. Their methods are proved equal to
functions on values, and the properties are proved of those functions. A panic of the source
is an outcome of its own, never excluded by a precondition. Times are integers, and a path is
the list of its components.

## Findings

Where the code does not do what one would expect, the code is followed.

* **Committed entries can differ.** A follower that accepts an append message, even an empty
  heartbeat with index 0, acknowledges the last index of its own log (`raft/raft.go:393`),
  although the message checked only what it carried. `AckCounterexample.CommittedEntriesDiffer`
  is a run of three nodes in which two of them have committed different entries at index 1.
  State machine safety is therefore proved of runs whose acknowledgements are faithful
  (`RaftSafety.FaithfulRun`). `RaftSafety.CoveredMeansChecked` gives the exact condition, known
  before the message is handled, under which a node claims only what it checked: the message
  replaces the end of the log it meets, or reaches at least to it. Runs in which every append
  message does so are faithful (`RaftSafety.CheckedRunFaithful`).
* **A vote is not fixed within its term.** `reset` clears the vote also when the term stays
  (`raft/raft.go:243`). `VoteExample.VoteClearedInTerm` is a run in which a candidate loses its
  vote for itself and keeps its term. `RaftSafety.VoteChanges` gives the exact condition: it
  happens if and only if a candidate hears from the leader of its term or its election is
  decided. What is fixed is a vote that was answered (`RaftSafety.GrantedVoteFixed`), and
  `RaftSafety.ElectionSafety` rests on that.
* **A server that stops before its first save cannot start again.** The log then holds no
  entry, not even the one in front of the first, and the node made from it fails on the first
  request for a vote (`raft/log.go:133-136`). `ServerSafety.RestartNeedsSave` says that this
  happens if and only if nothing was saved.
* **A server brought up by a peer's snapshot may not start again.** The snapshot is stored, but
  the write-ahead log does not learn of it, and `ReadAll` refuses an index beyond the last
  entry (`wal/wal.go:196-199`). `ServerSafety.PeerSnapshotRestart`: starting again works if and
  only if the log saved before reached the snapshot's index.
* **Negative node ids do not survive.** `Snapshot.MarshalTo` compares an id with 128 as a
  signed number, so of a negative id only the lowest byte is written
  (`raft/raftpb/raft.pb.go:1039-1051`), while `Size` counts ten bytes.
  `MessageCodec.SnapshotRoundTrip` and `MessageCodec.MessageRoundTrip` hold if and only if no
  id is negative; `MessageCodec.NegativeNodeExample` is one that is lost.
* **Empty record data comes back as nil** (`RaftCodec.RecordRoundTrip`).
* **A watcher can be told what a scan does not find, and the other way round.** Deleting a
  directory tells the watchers of every path below it (`store/store.go:286-289`); a scan for
  such a path finds no event. A hidden path below a recursive watch is skipped live and found
  by a scan. `WatcherHubs.WatcherHub.ReplayAgrees` states exactly when both agree;
  `StoreRuns.ToldButNotFound` and `StoreRuns.FoundButNotTold` are instances where they do not.
* **The sequence check has a gap.** `isValidSeq` does not look at the step after sequence
  number 0 (`wal/util.go:43`); `Wals.CheckSequence` says so, and `WalModel.GapAfterZero` shows
  files 0 and 5 accepted.

## Model

| member | source | states |
|---|---|---|
| RaftSafety.ElectionSafety | raft/raft.go:290-351 | at any two moments of any run, restarts included, two nodes that lead in the same term are the same node |
| RaftSafety.VoteChanges | raft/raft.go:240-253 | within its term a vote that was given changes if and only if a candidate concedes to a leader or its own election is decided |
| RaftSafety.GrantedVoteFixed | raft/raft.go:476-500 | in any run, a node that granted its vote in its current term is a follower that still has it, and it never granted another in that term |
| VoteExample.VoteClearedInTerm | raft/raft.go:452-474 | a run of three nodes whose last action clears the vote of a candidate that keeps its term |
| RaftSteps.RestartKeeps | raft/node.go:114-124 | a node that starts again from its term, vote, commit index and log keeps the election and log invariants |
| RaftSafety.RunOwn | raft/raft.go:310-330 | in every reachable state a leader's log ends with an entry of its own term |
| StepLaws.DenialAnswered | raft/raft.go:72-76 | a denial makes the leader step back one entry for that peer, never below the first, and send everything from there, or the snapshot; nothing else changes |
| StepLaws.AppendAnswered | raft/raft.go:391-397 | an append message is denied if and only if the entry it builds on is missing; it panics if and only if a committed entry differs; otherwise the log is kept up to the first entry that differs and taken from the message from there on, the commit index follows, and the last index is acknowledged |
| StepLaws.AckCounted | raft/raft.go:228-238 | an acknowledgement is recorded; the leader commits the largest index that more than half of the peers have if and only if it is new and of its term, and then sends to everybody |
| StepLaws.VoteAnswered | raft/raft.go:476-500 | a vote is granted if and only if the node is free to give it and the candidate's log is as far as its own; every request of the node's term or a later one is answered |
| StepLaws.HupStands | raft/raft.go:339-351 | a node that does not lead stands in the next term, votes for itself and tells all others where its log ends; a leader panics |
| StepLaws.HupWinsAlone | raft/raft.go:339-351 | a node without peers leads at once |
| StepLaws.VoteCounted | raft/raft.go:452-474 | an answer decides the election if and only if just over half have now granted or have now denied; the winner's log, progress and messages, and what becomes of the loser |
| StepLaws.ProposalTaken | raft/raft.go:420-450 | a leader appends and sends a proposal, but drops a configuration change while another is pending; a follower passes it on; others panic |
| StepLaws.SnapshotAnswered | raft/raft.go:509-524 | a snapshot is taken over if and only if it reaches beyond what is committed; the log then begins at its index with its term |
| StepLaws.CaughtUpBySnapshot | raft/raft.go:182-198 | a follower behind the leader's log takes the snapshot, accepts what the leader sends next, and then has the leader's log from the snapshot on |
| StepLaws.BeatSent | raft/raft.go:219-226 | only a leader sends heartbeats: one to every other peer, empty and at index 0 |
| StepLaws.StaleDropped | raft/raft.go:353-389 | a message of an earlier term has no effect |
| Replication.CatchesUp | raft/raft.go:437-446 | however far a follower's log is from the leader's, it has the leader's whole log after at most one denial for each index down to an entry both have |
| Replication.ProposalCommits | raft/raft.go:420-450 | a leader that none of a majority is ahead of can commit what is proposed, with messages among that majority only: all of them then have its log and know it committed |
| ClusterProgress.ElectionWon | raft/raft.go:339-351 | a node whose log is as far, and whose term is as large, as those of a majority wins the next election with the votes of that majority only |
| ClusterProgress.MajorityServes | raft/raft.go:353-389 | from every state of a faithful run every majority can, without the others, come to a state in which all of its members have committed a new proposal |
| ConfSafety.AtMostOneOpen | raft/raft.go:310-330 | in no run does a node have two configuration entries it does not know to be committed, and a leader that has one knows that it is pending |
| ConfSafety.NoDoubleConf | raft/raft.go:310-330 | the panic over a second uncommitted configuration entry is unreachable |
| RaftSafety.LeaderPointer | raft/raft.go:353-405 | a node that names a leader names one that really led in the node's term at some moment of the run |
| RaftSafety.RepliesNotAhead | raft/raft.go:175-180 | replies and forwarded proposals never carry a term above their recipient's |
| RaftSafety.HistoryTrue | raft/raft.go:310-330 | the record of leaders and their logs that the proofs speak of is what the run shows |
| RaftSafety.LogsMatch | raft/log.go:49-81 | two logs with the same term at an index are identical up to that index, in every reachable state |
| RaftSafety.LogTermsOrdered | raft/log.go:49-81 | along a log, terms never decrease and never exceed the node's, and each entry sits at the index it carries |
| RaftSafety.MessageMatches | raft/raft.go:182-198 | a log and an append message in flight that share index and term of an entry agree on everything the message says up to it |
| RaftSafety.CertifiedAtEnd | raft/raft.go:228-238 | what a node had committed at some moment of a faithful run is still backed, at the end, by an entry a majority acknowledged to the leader that made it |
| RaftSafety.StateMachineSafety | raft/raft.go:228-238 | in a faithful run, restarts included, no two nodes, at any two moments, differ at an index both have committed |
| RaftSafety.CommittedConflictUnreachable | raft/log.go:49-66 | in a faithful run no delivery makes a node panic over a committed entry |
| RaftSafety.FaithfulMeansPrefix | raft/raft.go:391-397 | an acknowledgement is faithful if and only if the sender's whole log is the beginning of that term's leader's |
| RaftSafety.ClaimsAreCovered | raft/raft.go:391-397 | a node that takes an append message claims only what the message checked if and only if the message covers its log |
| RaftSafety.CoveredMeansChecked | raft/raft.go:353-397 | the same of every action in every reachable state |
| RaftSafety.CheckedRunFaithful | raft/raft.go:391-397 | a run in which every append message covers the log it meets is faithful |
| RaftSafetySteps.NextGood | raft/raft.go:353-389 | every action, also a restart and the refusal of a message from before the log, keeps the election and log invariants, and with faithful acknowledgements those about commits |
| AckCounterexample.CommittedEntriesDiffer | raft/raft.go:391-397 | a run of three nodes after which two have committed different entries at index 1 |
| Quorums.MajoritiesMeet | raft/raft.go:255-257 | two majorities of the same members share one |
| Quorums.SortedPosition | raft/raft.go:228-238 | position q-1 of the match values sorted in descending order is the largest index a majority has reached |
| Quorums.QuorumIndexUnique | raft/raft.go:228-238 | there is only one such index |
| Quorums.SortDescending | raft/raft.go:228-238 | the result is sorted and a permutation of the input |
| RaftLogModel.FindConflictFirst | raft/log.go:74-81 | before the index found every entry matches in term, and at it one does not |
| RaftLogModel.ConflictWithin | raft/log.go:74-81 | the first conflict lies in the log or right after it, and without one the entries lie in the log |
| Compaction.PerformKeepsMarks | raft/log.go:49-110 | offset <= applied <= committed <= last index and offset <= unstable <= last index + 1 survive every operation that does not panic, and committed never decreases |
| Compaction.PerformAgrees | raft/log.go:145-206 | every operation at or above the offset has the same result on a compacted log and on the log that was never compacted, and keeps them in agreement |
| Compaction.SameReadings | raft/log.go:83-137 | what is read beyond the offset is the same from both |
| Compaction.CompactionRefinement | raft/log.go:145-206 | the same over any sequence of operations, each at or above the offset it meets, from two logs in agreement on |
| Compaction.FreshLogRefinement | raft/log.go:26-34 | the same from a fresh log, again for indexes at or above the offset |
| SendSafety.ServesPeer | raft/raft.go:182-198 | a node with valid marks can send to every peer: entries beyond the offset, or a snapshot at the offset |
| SendSafety.StepFine | raft/raft.go:353-389 | no call of Step breaks that, and if it panics it is not from sending: a proposal or campaign out of place, a second configuration entry, or an append that meets a committed entry |
| SendSafety.ReachableValid | raft/raft.go:502-534 | every state reached through messages, Readys and compactions keeps it |
| SendSafety.SendingNeverPanics | raft/raft.go:182-198 | in every such state every peer has next >= 1, the offset slot is never asked for, and a needed snapshot is non-empty with the offset as its index |
| SendSafety.NoPanicFromSending | raft/raft.go:353-389 | nothing a node may be given makes it panic over a snapshot, the offset slot, an unknown peer, an empty log or a follower that wins |
| RaftLogs.RaftLog.constructor | raft/log.go:26-34 | a log with one empty slot and all marks at 0 |
| RaftLogs.RaftLog.FindConflict | raft/log.go:74-81 | the loop finds the first conflict |
| RaftLogs.RaftLog.Append | raft/log.go:68-72 | the entries replace everything after the given index, and the unstable mark moves back to there |
| RaftLogs.RaftLog.MaybeAppend | raft/log.go:49-66 | rejected, panicking or accepted exactly as the value says, with the new log |
| RaftLogs.RaftLog.MaybeCommit | raft/log.go:145-151 | advances only to a larger index of the given term |
| RaftLogs.RaftLog.ResetUnstable | raft/log.go:93-95 | everything counts as saved |
| RaftLogs.RaftLog.ResetNextEnts | raft/log.go:106-110 | everything committed counts as applied |
| RaftLogs.RaftLog.Compact | raft/log.go:158-166 | drops what lies before the index, panics outside the applied bounds |
| RaftLogs.RaftLog.Snap | raft/log.go:168-175 | records a snapshot |
| RaftLogs.RaftLog.Restore | raft/log.go:181-188 | a log that begins at the snapshot |
| RaftLogs.RaftLog.Load | raft/log.go:40-43 | the entries loaded count as saved |
| RaftNodes.Raft.constructor | raft/raft.go:121-139 | a follower of term 0 that knows its peers |
| RaftNodes.Raft.Send | raft/raft.go:175-180 | the message is queued with the node's id and term |
| RaftNodes.Raft.SendAppend | raft/raft.go:182-198 | entries or a snapshot for one peer, or a panic |
| RaftNodes.Raft.BcastAppend | raft/raft.go:209-217 | one such message for every other peer, whatever the order of the map |
| RaftNodes.Raft.BcastHeartbeat | raft/raft.go:219-226 | one heartbeat for every other peer |
| RaftNodes.Raft.CollectMatches | raft/raft.go:228-232 | the match values of all peers, each once: as many of them reach a value as there are peers that do |
| RaftNodes.Raft.MaybeCommit | raft/raft.go:228-238 | commits the largest index a majority has reached, if it is of the current term |
| RaftNodes.Raft.AppendEntry | raft/raft.go:259-265 | appends the entry under the node's term and the next index, then commits what it can |
| RaftNodes.Raft.Reset | raft/raft.go:240-253 | term set, vote and votes cleared, next index of every peer set after the last index |
| RaftNodes.Raft.BecomeFollower | raft/raft.go:290-296 | a follower of the given leader |
| RaftNodes.Raft.BecomeCandidate | raft/raft.go:298-308 | a candidate of the next term that votes for itself; a leader panics |
| RaftNodes.Raft.BecomeLeader | raft/raft.go:310-330 | a leader with an empty entry appended; panics on two pending configuration entries |
| RaftNodes.Raft.Poll | raft/raft.go:162-173 | the first vote of a peer counts, and the result is the number granted |
| RaftNodes.Raft.Campaign | raft/raft.go:339-351 | votes are asked for, or the lone node wins at once |
| RaftNodes.Raft.HandleAppendEntries | raft/raft.go:391-397 | the log's answer becomes a denial, a panic, or an acknowledgement of the last index |
| RaftNodes.Raft.Restore | raft/raft.go:509-524 | a snapshot beyond the commit index replaces log and progress |
| RaftNodes.Raft.HandleSnapshot | raft/raft.go:399-405 | restored and acknowledged, or the commit index acknowledged |
| RaftNodes.Raft.StepLeader | raft/raft.go:420-450 | what a leader does with each message |
| RaftNodes.Raft.StepCandidate | raft/raft.go:452-474 | what a candidate does with each message |
| RaftNodes.Raft.StepFollower | raft/raft.go:476-500 | what a follower does with each message |
| RaftNodes.Raft.Step | raft/raft.go:353-389 | the whole call: campaign, larger and smaller terms, dispatch, recorded commit, messages queued, or a panic |
| RaftNodes.Raft.Nodes | raft/raft.go:536-542 | the peers, each once |
| RaftNodes.Raft.Compact | raft/raft.go:502-507 | a snapshot at the applied index and the log compacted to it |
| RaftNodes.Raft.LoadState | raft/raft.go:563-568 | term, vote and commit index loaded |
| RaftNodes.Raft.LoadEnts | raft/raft.go:559-561 | the log loaded |
| RaftNodes.RestartNode | raft/node.go:114-124 | a new node, restored and loaded |
| NodeSteps.StepMoves | raft/raft.go:353-389 | one call of Step leaves committed entries and entries marked saved as they are, and moves the marks the right way |
| Wire.VarintRoundTrip | raft/raftpb/raft.pb.go:1212-1220 | every 64-bit word is read back from its varint |
| Wire.VarintLength | raft/raftpb/raft.pb.go:951-960 | the length of a varint is the number of 7-bit groups |
| Wire.WordLength | raft/raftpb/raft.pb.go:951-960 | an int64 takes at most ten bytes, and a negative one exactly ten |
| WireBytes.VarintMeans | raft/raftpb/raft.pb.go:1212-1220 | a varint holds the number in groups of seven bits, lowest first and no more than needed, with the top bit of all bytes but the last set |
| WireBytes.VarintExample | raft/raftpb/raft.pb.go:1212-1220 | 300 is written AC 02 |
| WireBytes.ReadVarintMeans | raft/raftpb/raft.pb.go:236-257 | whatever the bytes, the number read is the one they stand for, cut to 64 bits, and reading fails if and only if no byte ends it |
| WireBytes.AcceptedMeans | raft/raftpb/raft.pb.go:236-344 | a field is accepted only under its own number and wire type, and with as many bytes as its length says |
| Wire.FieldReadBack | raft/raftpb/raft.pb.go:236-344 | every field is read back from its bytes |
| Unmarshalling.ReadVarintAt | raft/raftpb/raft.pb.go:236-257 | the loop reads what the recursive reading gives, errors included |
| Unmarshalling.ReadFieldAt | raft/raftpb/raft.pb.go:236-344 | one field is read, or the error that the bytes call for |
| Unmarshalling.Unmarshal | raft/raftpb/raft.pb.go:236-344 | the loop over the fields, for every format |
| Unmarshalling.WholeReadBack | raft/raftpb/raft.pb.go:236-344 | bytes that encode a list of fields parse to the value those fields assign |
| RaftCodec.EntryRoundTrip | raft/raftpb/raft.pb.go:236-344 | Unmarshal returns the entry that was marshalled |
| RaftCodec.HardStateRoundTrip | raft/raftpb/raft.pb.go:667-753 | the same for a hard state |
| RaftCodec.ConfChangeRoundTrip | raft/raftpb/raft.pb.go:754-862 | the same for a configuration change |
| RaftCodec.RecordRoundTrip | wal/walpb/record.pb.go:43-136 | the same for a record, empty data coming back as nil |
| RaftCodec.InfoRoundTrip | raft/raftpb/raft.pb.go:179-235 | the same for the info record |
| WireBytes.EntryOnWire | raft/raftpb/raft.pb.go:997-1019 | the encoding is 08, type, 10, term, 18, index, 22, length, data |
| WireBytes.EntryFromWire | raft/raftpb/raft.pb.go:236-344 | bytes of that form are read as that entry |
| WireBytes.HardStateOnWire | raft/raftpb/raft.pb.go:1142-1160 | the encoding is 08, term, 10, vote, 18, commit |
| WireBytes.HardStateFromWire | raft/raftpb/raft.pb.go:667-753 | bytes of that form are read as that state |
| WireBytes.ConfChangeOnWire | raft/raftpb/raft.pb.go:1171-1193 | the encoding is 08, id, 10, type, 18, node id, 22, length, context |
| WireBytes.ConfChangeFromWire | raft/raftpb/raft.pb.go:754-862 | bytes of that form are read as that change |
| WireBytes.RecordOnWire | wal/walpb/record.pb.go:175-196 | the encoding is 08, type, 10, checksum and, unless the data is nil, 1A, length, data |
| WireBytes.RecordFromWire | wal/walpb/record.pb.go:43-136 | bytes of that form are read as that record, empty data coming back as nil |
| WireBytes.InfoOnWire | raft/raftpb/raft.pb.go:179-235 | 08 and the id, written and read |
| WireBytes.SnapshotOnWire | raft/raftpb/raft.pb.go:1030-1062 | the encoding is 0A, length, data, then 10 and each node id, 18, index, 20, term |
| WireBytes.SnapshotFromWire | raft/raftpb/raft.pb.go:345-455 | bytes of that form are read as that snapshot if and only if no node id is negative |
| WireBytes.MessageOnWire | raft/raftpb/raft.pb.go:1073-1131 | the encoding, tag by tag from 08 for the type to 50 for the denial |
| WireBytes.MessageFromWire | raft/raftpb/raft.pb.go:456-666 | bytes of that form are read as that message if and only if no node id is negative |
| MessageCodec.NodesSizeExact | raft/raftpb/raft.pb.go:885-901 | the size computed for node ids is exact if and only if none is negative |
| MessageCodec.SnapshotSizeExact | raft/raftpb/raft.pb.go:885-901 | Size is the length written if and only if no node id is negative |
| MessageCodec.SnapshotRoundTrip | raft/raftpb/raft.pb.go:1030-1062 | a snapshot survives if and only if no node id is negative |
| MessageCodec.NegativeNodeExample | raft/raftpb/raft.pb.go:1039-1051 | the snapshot with node id -1 does not survive |
| MessageCodec.MessageSizeExact | raft/raftpb/raft.pb.go:902-925 | Size is the length written if and only if no node id is negative, and never less |
| MessageCodec.MessageRoundTrip | raft/raftpb/raft.pb.go:456-666 | a message survives if and only if no node id of its snapshot is negative |
| Marshalling.EncodeVarint | raft/raftpb/raft.pb.go:1212-1220 | writes the varint at the offset and nothing else |
| Marshalling.SizeOfVarint | raft/raftpb/raft.pb.go:951-960 | the length of the varint |
| Marshalling.MarshalEntry | raft/raftpb/raft.pb.go:997-1019 | writes exactly the encoding of the entry, tag by tag |
| Marshalling.SizeEntry | raft/raftpb/raft.pb.go:872-884 | its length |
| Marshalling.MarshalHardState | raft/raftpb/raft.pb.go:1142-1160 | writes exactly the encoding of the hard state, tag by tag |
| Marshalling.SizeHardState | raft/raftpb/raft.pb.go:926-936 | its length |
| Marshalling.MarshalConfChange | raft/raftpb/raft.pb.go:1171-1193 | writes exactly the encoding of the configuration change, tag by tag |
| Marshalling.SizeConfChange | raft/raftpb/raft.pb.go:937-950 | its length |
| Marshalling.MarshalRecord | wal/walpb/record.pb.go:175-196 | writes exactly the encoding of the record, tag by tag |
| Marshalling.SizeRecord | wal/walpb/record.pb.go:137-151 | its length |
| MessageMarshalling.PutNodes | raft/raftpb/raft.pb.go:1039-1051 | writes the node ids, of a negative one only the lowest byte |
| MessageMarshalling.MarshalSnapshot | raft/raftpb/raft.pb.go:1030-1062 | writes exactly the encoding of the snapshot, tag by tag |
| MessageMarshalling.SizeSnapshot | raft/raftpb/raft.pb.go:885-901 | the size that is computed, right or wrong |
| MessageMarshalling.PutEntries | raft/raftpb/raft.pb.go:1096-1107 | writes the entries, each with its length |
| MessageMarshalling.MarshalMessage | raft/raftpb/raft.pb.go:1073-1131 | writes exactly the encoding of the message, tag by tag |
| MessageMarshalling.SizeMessage | raft/raftpb/raft.pb.go:902-925 | the size that is computed, right or wrong |
| Checksum.UpdateNothing | wal/encoder.go:25-37 | nothing written leaves the CRC-32C as it is |
| Checksum.UpdateSplit | wal/encoder.go:25-37 | the checksum of data in two pieces is that of the whole |
| Checksum.OneByteShows | wal/encoder.go:25-37 | data that differ in one byte have different checksums |
| Checksum.CheckValue | wal/encoder.go:25-37 | the digits 1 to 9 in ASCII have the check value of CRC-32C, E3069283 |
| WalModel.SearchIndex | wal/util.go:20-32 | the last file that begins at or before the index |
| WalModel.GapAfterZero | wal/util.go:36-50 | files numbered 0 and 5 pass for a sequence, files numbered 1 and 5 do not |
| WalHistory.TruncateAndAppend | wal/wal.go:157-209 | reading one more entry cuts the log at its index and appends it |
| WalHistory.StepConsistent | wal/wal.go:212-291 | every save and every cut keeps all files readable from all of them on |
| WalHistory.OpenAtAnyIndex | wal/wal.go:101-209 | after any saves and cuts, the file found for an index of the log passes every check across the files and yields the log from that index on, the suffix of what the first file yields; an index beyond the log is reported missing |
| WalHistory.ReadWholeLog | wal/wal.go:157-209 | from the first file everything comes back: log, state, last index, checksum |
| WalChecks.ReadableMeans | wal/wal.go:157-209 | files can be read if and only if every record carries the checksum of the data up to it, has a known type and a payload that parses, agrees with the id before and leaves no gap, and the last entry reaches the index; what is read is the last state and of each index the last entry |
| WalChecks.FirstFault | wal/decoder.go:28-47 | the first record with a fault decides the error: a wrong checksum, also of a checksum record, is a mismatch, and so on |
| WalChecks.DamageRefused | wal/decoder.go:28-47 | whatever byte of whatever record in a readable log changes, reading reports a checksum mismatch |
| WalChecks.SavesRecords | wal/wal.go:246-278 | type 1 holds the id, 2 an entry, 3 a state that is not empty, each with the checksum of all data so far, at the end of the last file |
| WalChecks.CutsFile | wal/wal.go:212-228 | a cut adds a file with the next number that expects the next entry and begins with the checksum, type 4 |
| WalFrames.LittleEndianRoundTrip | wal/encoder.go:47-49 | a length is read back from its eight bytes |
| WalFrames.LittleEndianExample | wal/encoder.go:47-49 | the lowest byte comes first |
| WalFrames.FramesReadBack | wal/decoder.go:28-47 | reading the bytes of framed records is reading the records, checks included |
| Wals.SearchFile | wal/util.go:20-32 | the last file that begins at or before the index, or none |
| Wals.CheckSequence | wal/util.go:36-50 | true exactly if each number follows the one before, except after 0 |
| Wals.Wal.Create | wal/wal.go:69-96 | one file that holds the first checksum record |
| Wals.Wal.Encode | wal/encoder.go:25-37 | a record with the running checksum goes to the end of the last file, as bytes |
| Wals.Wal.SaveInfo | wal/wal.go:246-253 | the info record |
| Wals.Wal.SaveEntry | wal/wal.go:255-266 | the entry, and the last index follows it |
| Wals.Wal.SaveState | wal/wal.go:268-278 | the state, unless it is empty |
| Wals.Wal.Save | wal/wal.go:280-287 | state, then entries |
| Wals.Wal.Cut | wal/wal.go:212-228 | a new file that begins after the last index with the running checksum |
| Wals.Wal.ReadAll | wal/wal.go:157-209 | the bytes read give what the records give; afterwards the log can be appended to where reading ended |
| Wals.Wal.ReadLoop | wal/wal.go:157-209 | the loop over frames, with its errors |
| Wals.OpenAtIndex | wal/wal.go:101-155 | the log opened at the file found, or none if no file fits or the sequence is broken |
| EtcdServers.EtcdServer.constructor | etcdserver/server.go:112-130 | a server that has saved and applied nothing |
| EtcdServers.EtcdServer.Handle | etcdserver/server.go:132-134 | a message changes the node only |
| EtcdServers.EtcdServer.TakeReady | etcdserver/server.go:136-191 | one Ready taken: saved, applied, and a snapshot begun when enough was applied |
| EtcdServers.EtcdServer.StoreReady | etcdserver/server.go:136-155 | hard state and entries go to the log, and the snapshot is kept |
| EtcdServers.EtcdServer.ApplyReady | etcdserver/server.go:153-191 | the committed entries are applied in order, and the indexes follow |
| EtcdServers.EtcdServer.Compact | etcdserver/server.go:428-438 | the node compacted and the log cut |
| EtcdServers.Restart | main.go:154-181 | opening and reading the log of a server that stopped at any moment after its first save succeed, and the server made from it is the recovered one |
| ServerSafety.HandleGood | raft/node.go:153-225 | handling a message keeps what ties node, log and applied entries together |
| ServerSafety.TakenGood | raft/node.go:295-311 | so does taking a Ready |
| ServerSafety.CompactedGood | etcdserver/server.go:428-438 | so does a compaction |
| ServerSafety.RecoveredGood | main.go:154-181 | so does stopping at any moment after the first save and starting again from disk |
| ServerSafety.NeverAhead | etcdserver/server.go:176-186 | without snapshots from peers, a snapshot in a Ready never lies beyond what was applied, so the store is never recovered while running |
| ServerSafety.ExactlyOnce | etcdserver/server.go:136-191 | in every run, crashes included, the entries applied to the store are 1, 2, 3, ... without gap or repeat, each still the entry of its index in node and log, and a snapshot holds the store after exactly the entries up to its index |
| ServerSafety.ReadyIsDone | etcdserver/server.go:136-191 | after a Ready everything committed is applied and on disk are log, term, vote and commit index; a snapshot is begun if and only if more than the set number of entries was applied since the last |
| ServerSafety.DeliveredStays | raft/node.go:153-225 | of what was applied at some moment and what is applied later, after any number of crashes, one is the beginning of the other |
| ServerSafety.CrashRecovery | raft/node.go:114-124 | stopping right after any Ready, reading from the latest snapshot returns the node's log from there with its term, vote and commit, and RestartNode rebuilds them |
| ServerSafety.CrashAnytime | raft/node.go:114-124 | stopping at any moment after the first save, the node that starts again has what was saved and, committed or in its snapshot, every entry that was ever applied |
| ServerSafety.RestartNeedsSave | main.go:166-181 | the node made from disk has no entry, and fails on a request for a vote, if and only if nothing was saved before the stop |
| ServerSafety.PeerSnapshotRestart | wal/wal.go:157-199 | with a peer's snapshot stored, reading from its index works if and only if the log saved before reached it, and else reports the index missing |
| ServerClusters.AlikeStep | raft/raft.go:353-389 | a compacted node decides and sends what the node with the whole log does, except that it refuses messages from before its log and may send a snapshot instead of entries |
| ServerClusters.MessagesDeliverable | raft/raft.go:182-198 | every message of a cluster run is one a server can take |
| ServerClusters.Independent | raft/node.go:153-225 | steps of the other servers put before the unsaved steps of one leave that one's node as it is, and no message is lost |
| ServerClusters.CrashTracked | main.go:154-181 | after a crash the server's node is the one of the saved run with a restart added, and its unsaved steps are gone without another server having seen them |
| ServerClusters.ServersTracked | etcdserver/server.go:136-191 | whenever servers handle messages, take Readys, compact, crash and restart, what they have saved is a run of the cluster, each node is what that run and its unsaved steps make of it, and only saved messages are on the network |
| ServerClusters.AppliedAlike | etcdserver/server.go:136-191 | for servers that compact, crash and restart at any time: in a faithful run, what two servers have applied at any two moments is the same as far as both have got |
| ServerClusters.SnapshotsAlike | etcdserver/server.go:428-438 | in such a run snapshots of the same index hold the same store, whichever servers saved them and when |
| HeapOrder.FirstIsLeast | store/ttl_key_heap.go:51-56 | the first key of a heap is the least |
| StoreNodes.TtlKeyHeap.Swap | store/ttl_key_heap.go:27-34 | list and position map change together |
| StoreNodes.TtlKeyHeap.Up | store/ttl_key_heap.go:64-66 | sifting up restores the order |
| StoreNodes.TtlKeyHeap.Down | store/ttl_key_heap.go:58-62 | sifting down restores the order below |
| StoreNodes.TtlKeyHeap.Push | store/ttl_key_heap.go:36-66 | the node is in the heap, order and positions kept |
| StoreNodes.TtlKeyHeap.Pop | store/ttl_key_heap.go:42-62 | the first node leaves, order and positions kept |
| StoreNodes.TtlKeyHeap.Update | store/ttl_key_heap.go:68-74 | a node whose key has changed already finds its place |
| StoreNodes.TtlKeyHeap.Remove | store/ttl_key_heap.go:76-81 | a node leaves from anywhere, whatever its key became; a node not in the heap changes nothing |
| StoreModel.FileAboveMeans | store/store.go:532-556 | a file lies above a path if and only if some proper prefix is a file |
| StoreModel.DirsAdded | store/store.go:593-609 | exactly the missing directories above a path are added |
| StoreModel.ReapedAll | store/store.go:559-587 | with nothing due left, exactly the nodes without a due node at or above them remain |
| StoreRuns.OneEvent | store/store.go:128-353 | an error changes nothing; a success adds one event whose index is the new index |
| StoreLaws.UpdateMeans | store/store.go:397-449 | when an update succeeds, the error otherwise; a file gets value, index and time and keeps its creation, a directory gets the time only, every other path is as before, and what the event says |
| StoreLaws.SwapMeans | store/store.go:197-252 | a swap succeeds if and only if the path is a file with the value and index expected; if it is a file without, the test is reported as failed; effects as for an update |
| StoreLaws.CreateMeans | store/store.go:451-530 | when create and set succeed, and each error; the new node, the missing directories above it, everything else as before, and what the event says |
| StoreLaws.DeleteMeans | store/store.go:254-306 | when a deletion succeeds, and each error; the path and everything below it go, and nothing else |
| StoreLaws.CompareDeleteMeans | store/store.go:308-353 | the same for a comparing deletion, which succeeds if and only if the path is a file with the value and index expected |
| StoreLaws.StaysUntilTouched | store/store.go:128-353 | what is at a path stays through any requests and expirations until one succeeds at that path or takes it out |
| StoreLaws.ReadsBack | store/store.go:128-353 | after any run, what a successful write put at a path is there after any further run that does not touch the path |
| StoreLaws.OneSwapWins | store/node.go:334-352 | in every run, of two swaps at a path that expect the same index at most one succeeds |
| StoreLaws.SurvivesMeans | store/store.go:559-587 | what survives an expiration has no time, or one after the cutoff, at the path itself and all the way up |
| StoreRuns.PerformKeepsClosed | store/store.go:128-353 | every operation keeps the map prefix-closed, with directories above everything |
| StoreRuns.EventsNumbered | store/store.go:559-587 | after any requests and expirations the events are numbered 1, 2, 3, ... up to the index, and only deletions and expirations took paths out, at their key and below |
| StoreRuns.OnlyRemovalsAbove | store/store.go:570-584 | in every run, a watched path goes with a directory above it only by deletion or expiration of that directory |
| StoreRuns.ToldButNotFound | store/store.go:254-306 | the watcher of /foo/bar is told of the deletion of /foo, which a scan for /foo/bar does not find |
| StoreRuns.FoundButNotTold | store/watcher_hub.go:116-149 | a recursive watch on /foo is not told of the creation of /foo/_x, which a scan finds |
| Stores.Store.constructor | store/store.go:78-87 | an empty store |
| Stores.Store.InternalGet | store/store.go:532-556 | the node at a path, or the error of the flat lookup |
| Stores.Store.CheckDir | store/store.go:593-609 | the directory of that name, found or made, or none for a file |
| Stores.Store.MakeDirs | store/store.go:373-395 | the directories above a path, made where missing; nothing made if a file is in the way |
| Stores.Store.Create | store/store.go:451-530 | the flat creation, errors included; on an error tree, heap, index and history are as before |
| Stores.Store.Set | store/store.go:145-183 | as the flat creation that replaces a file; on an error tree and heap are as before |
| Stores.Store.Update | store/store.go:397-449 | as the flat update; on an error tree and heap are as before |
| Stores.Store.CompareAndSwap | store/store.go:197-252 | as the flat compare and swap; on an error tree and heap are as before |
| Stores.Store.Delete | store/store.go:254-306 | as the flat deletion, with everything below taken out; on an error tree and heap are as before |
| Stores.Store.CompareAndDelete | store/store.go:308-353 | as the flat compare and delete; on an error tree and heap are as before |
| Stores.Store.RemoveSubtree | store/node.go:198-252 | the node and everything below it leave tree and heap, and the watchers of each path are told |
| Stores.Store.UpdateTTL | store/node.go:307-330 | the new time, with the heap told after the key changed |
| Stores.Store.Write | store/node.go:111-119 | value and index of a file; a directory is left alone |
| Stores.Store.DeleteExpiredKeys | store/store.go:559-587 | ends, expires nodes first to last, and leaves exactly the nodes without a due node at or above them, whatever the order among ties |
| Stores.Store.Watch | store/store.go:355-370 | index 0 stands for the next event; otherwise as the hub's watch |
| EventHistories.EventHistory.AddEvent | store/event_history.go:29-41 | the ring holds the latest events with consecutive indexes, and start and last index are theirs |
| EventHistories.EventHistory.Insert | store/event_queue.go:11-20 | the event goes after the others, over the oldest once the ring is full |
| EventHistories.EventHistory.Scan | store/event_history.go:44-89 | the jump and the walk find what a linear search over all events finds, or report the index as cleared |
| EventHistories.FirstFromIsFirst | store/event_history.go:44-89 | the event found is the first of interest from there on, and none means there is none |
| EventHistories.SearchMeans | store/event_history.go:44-89 | the index is reported as cleared if and only if the oldest event kept is later; otherwise the first event at the key, or below it if asked, with at least that index is found |
| WatcherHubs.Watcher.Notify | store/watcher.go:40-71 | the watcher takes an event at its path, below it if recursive, or forced by a removal, if the index is late enough |
| WatcherHubs.WatcherHub.NotifyWatchers | store/watcher_hub.go:116-149 | every watcher of the path that heeds the event receives it and leaves the list |
| WatcherHubs.WatcherHub.NotifyGone | store/store.go:286-289 | the watchers of a path that has gone are told |
| WatcherHubs.WatcherHub.Notify | store/watcher_hub.go:98-114 | the event goes into the history and to every path above its key; every watcher has the first event it takes since its watch began |
| WatcherHubs.WatcherHub.Watch | store/watcher_hub.go:41-96 | answered from the history, put on its list, or refused because the index is cleared |
| WatcherHubs.TakenIsScanned | store/watcher_hub.go:98-149 | the first event taken live is the first event a scan finds if and only if the watch is undisturbed |
| WatcherHubs.TakenIsFirst | store/watcher_hub.go:98-149 | what a watcher takes is the first event that is late enough and at its path, below it and not hidden if recursive, or takes its path out |
| WatcherHubs.WatcherHub.ReplayAgrees | store/event_history.go:44-89 | a scan finds what a watcher received if and only if its index is retained and, while it waited, neither its path went with a directory above it nor a hidden event happened below it before an event meant for it |

## Left out

- Membership change: `addNode`, `removeNode`, `removed`, `msgDenied` and applying configuration entries; the members are fixed, and configuration entries only travel through the log.
- Snapshots from peers in runs of servers: `restore` is modelled for the node, for sending and in `ServerSafety.PeerSnapshotRestart`; a server that took one can leave a log it cannot be started from.
- Crashes inside a save: saving a Ready is one step, and no crash happens before the first.
- EtcdServers.EtcdServer.Handle: takes no snapshot messages, and of append messages those whose entries carry their indexes, as all do that nodes send.
- ServerSafety.HandleGood: the same.
- NodeSteps.StepMoves: the same.
- ServerClusters.AlikeStep: the same; in runs of servers snapshot messages stay undelivered, as the network may lose them.
- EtcdServers.EtcdServer.TakeReady: has no branch for recovering the store from a snapshot, which without snapshots from peers is never taken (`ServerSafety.NeverAhead`).
- ConfSafety.NoDoubleConf: does not model that applying a configuration entry clears the pending flag; a leader that applies one that was committed before its election clears the flag while a later one may still be open.
- ClusterProgress.MajorityServes: says what can be reached, not that timers and the network lead there; the run before it must be faithful, because otherwise an append may meet a committed entry and panic.
- RaftSafety.StateMachineSafety: needs faithful acknowledgements, because it fails without them; that premise is not necessary in every run, and `CoveredMeansChecked` is exact for a single call, not for a whole run.
- ServerSafety.ExactlyOnce: the saved store is an arbitrary function of the applied entries and not tied to `Stores.Store`, where expiry times depend on a clock and ties between a directory and its child can change the number of events.
- RaftNodes.Raft.Step: terms and indexes are unbounded integers; 64-bit overflow is modelled only in the codecs, and a Ready is saved only if its numbers fit.
- Unmarshalling.ReadFieldAt: as the next.
- Unmarshalling.Unmarshal: an unrecognized field is an error here, while the source keeps its bytes in `XXX_unrecognized`.
- RaftCodec.EntryRoundTrip: as for the other formats, the encoding must be shorter than 2^63 bytes.
- Wals.Wal.Encode: files are sequences of bytes that are written at once; buffering, syncing, directories and file names are not modelled, and a file is tagged with its sequence number and first index.
- Wals.Wal.ReadLoop: an entry beyond the entries read so far is an error here, while the source fails only if it lies beyond the capacity of the slice; no log that was written by saves and cuts leads there.
- Wals.Wal.ReadAll: the files hold whole frames; a file that ends inside a frame is treated by `ReadLoop` only.
- Wals.OpenAtIndex: the same.
- EtcdServers.EtcdServer.ApplyReady: how a request changes the store, the answer to its client and the sending of messages are not modelled.
- Goroutines, channels, tickers and the soft state: loops choose the next event, and store calls are atomic.
- Stores.Store.Create: unique names, the texts and causes of errors, permissions and the cleaning of path strings are not modelled.
- WatcherHubs.WatcherHub.Watch: stream watchers, the removal of a watcher by its client and the number of watchers are not modelled.
- WatcherHubs.Watcher.Notify: a watcher receives one event and leaves, so that its channel is never full.
- Stores.Store.Watch: as the two above.
- `Get`, `Save`, `Recovery`, `Clone` and the statistics of the store; they would need a model of JSON, or would add only easy members.
- The HTTP interface, discovery, the proxy, the client, and the codecs of `etcdserver/etcdserverpb` and `snap/snappb`, which follow the pattern of those modelled.
