# AsterDB in Dafny

A model of the parts of AsterDB that its safety rests on, with proofs about every input, every
run or every reachable state. `dafny verify dfyconfig.toml` checks all of it.

| part | files | what is proved |
|---|---|---|
| Raft core and stable store | `RaftTypes`, `RaftLog`, `RaftNode`, `StableStore`, `StoreSafety`, `RaftSafety`, `RaftCluster`, `RaftMoves`, `RaftElections`, `RaftVotes`, `RaftReplication`, `RaftLeading`, `RaftInstall`, `RaftTheorems`, `RaftPreVotes`, `RaftProposals`, `RaftReads`, `RaftRepair`, `RaftTransfer`, `RaftTimers`, `RaftRuns`, `RaftLimits`, `RaftAnomalies`, `RaftMachine` | safety over all runs of a cluster whose nodes crash after any prefix of an action list and whose network loses, repeats and reorders messages; every campaign was granted by a quorum and every applied command proposed; memory and disk refine each other; snapshot transfer completes; where the code is narrower than the protocol, exactly how much, and runs from the first boot that show it |
| B+ tree | `BTreeEntries`, `BTreeForest`, `BTreeSplit`, `BTreeSteps`, `BTreeGrowth`, `BTreeShrink`, `BTreeScan`, `BTreeValidate`, `BPlusTree` | page-level insert, delete, get and range refine a sorted map and keep everything the validator checks; the validator accepts exactly the well-formed trees |
| MVCC engine | `Mvcc`, `MvccChains`, `MvccRuns`, `MvccTheorems`, `MvccCommits`, `MvccReads`, `MvccVacuum`, `MvccEngine` | exactly when a request commits and why it aborts otherwise, snapshot isolation, exactly-once apply, index agreement, what scans and sweeps return and remove, and vacuum bisimulation, over all runs |
| Durable pager | `Recovery`, `RecoveryProofs`, `DurablePager` | crash atomicity, in the caller's terms, of apply, snapshot install and checkpoint at every write and sync; recovery interrupted at any of its own writes can be run again |
| Queries | `SqlExpr`, `QueryPlan`, `Executor`, `ExecutorLoops`, `PlanProofs`, `PlanTheorems`, `QueryMeaning`, `QueryAnswers`, `QuerySuccess`, `QueryTheorems`, `QueryLimits` | what expressions and queries mean, that the executor's answers mean it and when it has one; an optimized plan returns the rows of the naive one, end to end over engine runs, with exact conditions and the queries that miss them |
| Codecs | `OrderedKeys`, `RowCodec` | order-preserving keys; row encoding and decoding are inverse |
| History checker | `HistoryCheck` | the memoized search is sound and complete, for histories in which every output is explained by the last value written |

`Wrappers` and `Ordering` hold the shared result types, byte order and ordered enumeration.

How it is built. Each operation is a function on values, and where the source works by updating
fields or looping, a class or a method beside it does the same in place and is proved equal to
that function; the theorems are about the functions. Terms, indexes, page ids and log sequence
numbers are unbounded naturals, so the source's exhaustion and overflow branches do not occur,
except that `i64` arithmetic in SQL and the codecs is bounded as in the source. SHA-256 is replaced by
the identity, so that distinct contents have distinct digests. Pages are nodes with their encoded size; text is its UTF-8 bytes.

A run of the cluster is any sequence of inputs to its nodes: ticks, proposals, reads, locally built
snapshots, and any message that was ever sent, any number of times and in any order. At each input the
node may crash after any prefix of the actions it emits and restart from what is on disk. The one
restriction is that a locally built snapshot has content, an index above zero and at most the size the
receiver accepts. Two further conditions on a run are named where a theorem needs them:

- *covering*: no delivered append overcommits its receiver. An append overcommits a follower that
  already holds the whole batch when the announced commit index and the end of the follower's log both
  lie beyond the batch and beyond what it has committed.
- *fresh* for a node and a context: whenever that node takes a read with that context on, no answer naming
  the context under the node's current term is already under way to it.

Election safety, log matching, leader completeness and durable refinement hold in every run, and so does
agreement on committed entries between nodes whose commit index has reached an entry of their own term.
State machine safety and the absence of fatal branches need a covering run, the read barrier one that is
fresh for its read.

Four places where the code is narrower than the natural statement. The code is modelled as it is:

- Follower commit (`crates/aster-raft/src/node.rs:682`) is clamped to the end of the follower's
  log and not to the last entry of the message, while batches are capped at 64 entries.
  `OvercommitsExactly` says exactly when a delivery commits more than the paper's rule,
  `SentAppendCovers` when a sent append can be one of those. `CappedBatchAppliesForeignEntry` is a run of
  three voters that is covering up to its last delivery and ends with two nodes having applied different
  entries at index 65.
- ReadIndex: a rejected stale append echoes its read context under the responder's newer term
  (`crates/aster-raft/src/node.rs:697-718`), so a context used once a term is not enough.
  `ReadBarrier` holds in fresh runs, `UnusedContextIsFresh` gives the simplest way to be in one,
  `EarlierAnswersComplete` shows that without freshness early answers whose senders make up a quorum with
  the node complete the read at the node's own commit index, and `ReusedContextReadsStale` is a run in
  which that lies below what was committed.
- `recover` republishes the old checkpoint marker after replaying groups
  (`crates/aster-storage/src/recovery.rs:223-231`), although `apply` clears it. `ReopenExactly`
  and `RecoveryRestarts` say exactly when the next open succeeds; `MarkerLocksOut` says what a crash
  inside `apply` does to every checkpointed database.
- Query plans: hash-join keys go by table id (`crates/aster-db/src/executor.rs:355-369`), an index refuses
  to look up values over 16 MiB even when no row would be compared with them, a hash join encodes its keys
  and fails on one over 16 MiB (`crates/aster-db/src/executor.rs:293-303`), which a staged row may hold
  because staging checks types and the size of the primary key only
  (`crates/aster-engine/src/engine.rs:579-624`), and plans use the current catalog under old snapshots
  (`crates/aster-db/src/database.rs:807-809`). `HashJoinExactly`, `FilterExactly` and `QueryEquivalence`
  give the exact conditions; `RepeatedTableLosesRows`, `YoungIndexLosesRow`, `OversizedProbeFails` and
  `OversizedJoinKeyFails` are the queries, each over a state some engine run reaches.

The B+ tree assumes keys of one width and entries of at most a third of a leaf, which is what the
persistence layer gives it (`crates/aster-db/src/persistence.rs:27-30`). Branches of the source
that report a broken invariant (a page cycle, a missing child) are proved unreachable and left
out of the methods.

## Model

| member | source | states |
|---|---|---|
| RaftTheorems.StateMachineSafety | crates/aster-raft/src/node.rs:1070-1124 | in every covering run, with crashes, loss, duplication and reordering, no two nodes apply different entries at one index |
| RaftTheorems.ElectionSafety | crates/aster-raft/src/node.rs:372-401 | in every run at most one node ever announces leadership of a term, restarts and joint configurations included |
| RaftTheorems.OneLeaderPerTerm | crates/aster-raft/src/node.rs:490-549 | in every run nodes leading the same term at any two moments are one node |
| RaftTheorems.LogMatchingHolds | crates/aster-raft/src/node.rs:581-695 | in every run equal terms at an index mean equal retained entries at and below it, through truncation, 64-entry batches, overcommitting deliveries and compaction |
| RaftTheorems.LeaderCompletenessHolds | crates/aster-raft/src/node.rs:1088-1102 | in every run, once a node's commit index has reached an entry of the term it is in, leading or not and restarted or not, its whole log up to there, compacted entries included, is in the log of every leader of the same or a later term from then on |
| RaftTheorems.CommittedStaysCommitted | crates/aster-raft/src/node.rs:1088-1102 | in every covering run the same holds of whatever any node has committed |
| RaftTheorems.CommittedAgree | crates/aster-raft/src/node.rs:1070-1124 | in every run two nodes, at any two moments, hold the same entries where both have committed, if each has reached an entry of its own term or the run is covering |
| RaftTheorems.ReadBarrier | crates/aster-raft/src/node.rs:789-848 | in every run that is fresh for the read's node and context, a completed read was accepted by its node, and its index is at least what any node that reached its own term had committed up to the latest such acceptance, and in a covering run what any node had |
| RaftTheorems.UnusedContextIsFresh | crates/aster-raft/src/node.rs:789-829 | a context its node never took on before has no answer under way, in any run |
| RaftTheorems.FreshForEach | crates/aster-raft/src/node.rs:789-829 | a run in which no read of any node is answered before it is taken on is fresh for every node and context |
| RaftTheorems.DurableRefinement | crates/aster-raft/src/node.rs:57-209 | in every run the store accepts every mutation of every step, every executed prefix of the action list restarts, and the whole list makes disk equal memory |
| RaftTheorems.NeverFatal | crates/aster-raft/src/node.rs:1104-1127 | the only fatal branch any run can reach is a batch that contradicts a follower's committed entries, and no covering run reaches even that |
| RaftTheorems.SnapshotIntegrity | crates/aster-raft/src/node.rs:882-1014 | any snapshot a node holds was built by some node, checks against its digest and is not ahead of what the node applied |
| RaftPreVotes.CampaignWasGranted | crates/aster-raft/src/node.rs:372-452 | in every run, whoever asks for votes in a term had been asking for grants for it, and a quorum including itself had given them, each with a term below and a log no more advanced, by last term and last index, than the one the candidate reported from the term before |
| RaftPreVotes.GrantWasDue | crates/aster-raft/src/node.rs:404-426 | in every run each grant answers a request its candidate had sent, from a node whose term is below the term asked for and whose log is no more advanced than the one reported |
| RaftPreVotes.DueIsGranted | crates/aster-raft/src/node.rs:404-426 | in every run a delivered request is granted if and only if it is due, and answering it leaves term, vote, log, role and all else of the node alone |
| RaftProposals.AppliedWasProposed | crates/aster-raft/src/node.rs:1104-1127 | in every run a command any node applies is, index and term included, the entry some leader made of a proposal by then |
| RaftProposals.LoggedWasProposed | crates/aster-raft/src/node.rs:581-695 | and so is every command in any node's log, restarts included |
| RaftProposals.ConfirmedWasApplied | crates/aster-raft/src/node.rs:1104-1127 | in every run a confirmed proposal has just been applied, at the index named, as the entry a leader made of the proposal named |
| RaftProposals.LeaderConfirms | crates/aster-raft/src/node.rs:1104-1127 | in every run a node that leads confirms every command it applies |
| RaftProposals.ProposalTaken | crates/aster-raft/src/node.rs:766-787 | in every run a leader makes exactly one entry of a proposal, at the end of its log and in its term, and persists it; anyone else logs nothing and refuses with the leader it knows |
| RaftReads.ReadsAreAnswered | crates/aster-raft/src/node.rs:551-579 | in every run, short of a crash, a waiting read still waits at its index, completes at it, or is told that leadership was lost |
| RaftReads.AnswersWereDue | crates/aster-raft/src/node.rs:831-848 | in every run every completion or loss is of a waiting read and at its index; the only other answers are to the read being asked |
| RaftReads.ReadIsReceived | crates/aster-raft/src/node.rs:789-829 | in every run a read is taken on at the commit index by a leader that has committed in its term, under a context neither empty nor waiting, completed at once by a quorum of one, and refused for the first reason otherwise |
| RaftRepair.RepairStopsAtAgreement | crates/aster-raft/src/node.rs:719-764 | in every run, handling a rejection takes the leader's next index back, and never below an index where its log agrees with the one the follower had when it rejected, except one step at a time |
| RaftTransfer.TransferCompletes | crates/aster-raft/src/node.rs:882-1047 | from any state of any run with a chunk under way to a follower in need, whatever offset the leader is at and whatever whole chunks the follower holds, deliveries alone end with the follower on the leader's snapshot, byte for byte, and the leader knowing it |
| RaftTimers.TimersExactly | crates/aster-raft/src/node.rs:211-1047 | the election timer starts anew if and only if the node sets out to campaign, gives up leading for want of a quorum, gives its vote, hears from a leader of its term or a later one, or learns from an answer that its term is over; the heartbeat timer if and only if a leader has sent heartbeats or just taken office |
| RaftTimers.HeartbeatReaches | crates/aster-raft/src/node.rs:211-231 | in every run a leader's heartbeat tick sends every other participant an append or a snapshot chunk of its term |
| RaftRuns.SingleVoterApplies | crates/aster-raft/src/node.rs:337-401 | one tick makes a lone voter leader of term 1, which commits and applies its first entry |
| RaftRuns.ThreeVotersServe | crates/aster-raft/src/node.rs:337-848 | a covering and fresh run of three voters in which one is elected, two apply its first entry and a read completes at it |
| RaftTheorems.StepSafe | crates/aster-raft/src/node.rs:195-209 | every input keeps the cluster invariant at every prefix of the actions it emits, with each of the two conditions adding its part |
| RaftTheorems.RunSafe | crates/aster-raft/src/node.rs:195-209 | every run keeps the invariant, and every emitted action keeps its promise under everything that happens later |
| RaftLimits.OvercommitsExactly | crates/aster-raft/src/node.rs:581-695 | an append makes a follower commit beyond both the batch and what it had committed if and only if it is well formed and overcommits |
| RaftLimits.SentAppendCovers | crates/aster-raft/src/node.rs:1135-1168 | in every run a sent append covers the commit index it announces if and only if that index is within 64 entries of the batch's start, and an append that covers overcommits nobody |
| RaftLimits.ForeignEntryApplied | crates/aster-raft/src/node.rs:677-695 | an overcommitting delivery makes the follower apply whatever it holds up to the announced commit index |
| RaftAnomalies.CappedBatchAppliesForeignEntry | crates/aster-raft/src/node.rs:1159-1168 | a run of three voters from the first boot, covering and fresh but for its last delivery, after which two nodes have applied different entries at index 65 |
| RaftAnomalies.EarlierAnswersComplete | crates/aster-raft/src/node.rs:831-848 | from any reachable state, answers under way before the read is taken on complete it at the node's own commit index as soon as their senders and the node are a quorum |
| RaftAnomalies.ReusedContextReadsStale | crates/aster-raft/src/node.rs:697-718 | a run of three voters that keeps both conditions until a context is taken on in a second term, and then completes the read below what a later leader had committed |
| RaftSafety.LogMatching | crates/aster-raft/src/node.rs:581-695 | logs whose every entry was copied from its term's leader agree below any index where their terms agree |
| RaftSafety.OneCandidate | crates/aster-raft/src/node.rs:454-509 | two quorums of votes in one term name one candidate |
| RaftSafety.QuorumCompleteness | crates/aster-raft/src/node.rs:1088-1102 | what a quorum acknowledged in a term, ending in an entry of that term, is in every later leader's log |
| RaftSafety.LeaderCompleteness | crates/aster-raft/src/node.rs:1088-1102 | a commit of a term is in the log of every later leader |
| RaftSafety.ConflictExtends | crates/aster-raft/src/node.rs:581-695 | a leader's loss of a prefix is never undone by later growth of the logs |
| RaftSafety.CampaignKeepsInv | crates/aster-raft/src/node.rs:372-402 | starting an election keeps the invariant |
| RaftSafety.GrantKeepsInv | crates/aster-raft/src/node.rs:454-488 | voting for a log at least as advanced keeps the invariant |
| RaftSafety.ElectKeepsInv | crates/aster-raft/src/node.rs:511-549 | a quorum of votes makes the first and only leader of the term and keeps the invariant |
| RaftSafety.ExtendKeepsInv | crates/aster-raft/src/node.rs:766-787 | a leader's append keeps the invariant |
| RaftSafety.AdoptKeepsInv | crates/aster-raft/src/node.rs:639-676 | replacing a divergent suffix keeps the invariant and, in a covering history, loses nothing committed |
| RaftSafety.DecideKeepsInv | crates/aster-raft/src/node.rs:1088-1102 | committing a current-term entry a quorum holds keeps the invariant and only extends what is committed |
| RaftSafety.StepDownKeepsInv | crates/aster-raft/src/node.rs:551-579 | stepping down or restarting keeps the invariant |
| RaftTypes.QuorumsIntersect | crates/aster-raft/src/types.rs:84-91 | any two quorums of a configuration, fixed or joint, share a participant |
| RaftTypes.QuorumIndexIsExact | crates/aster-raft/src/types.rs:93-114 | the quorum index is reached by a quorum and nothing above it is |
| RaftMachine.QuorumIndex | crates/aster-raft/src/types.rs:93-114 | the descending search over sorted match indexes returns that index |
| RaftLog.FirstIndexStartsRun | crates/aster-raft/src/log.rs:94-100 | the repair index starts an unbroken run of the term that cannot start earlier |
| RaftLog.RaftLog.TruncateAndAppend | crates/aster-raft/src/log.rs:88-92 | the log becomes its prefix before the index followed by the new entries |
| RaftLog.RaftLog.FirstIndexOfTerm | crates/aster-raft/src/log.rs:94-100 | the cursor loop finds the run's first index |
| RaftLog.RaftLog.LastIndexOfTerm | crates/aster-raft/src/log.rs:102-109 | the backward search finds the last entry of a term, or the base |
| RaftLog.RaftLog.Compact | crates/aster-raft/src/log.rs:111-120 | the base moves and exactly the suffix after it, or nothing, is retained |
| RaftMachine.Raft.Step | crates/aster-raft/src/node.rs:195-209 | one input takes the object to the specified node and emits the specified actions in order |
| RaftMachine.Raft.OnTick | crates/aster-raft/src/node.rs:211-231 | ticks: elections, heartbeats and quorum checks |
| RaftMachine.Raft.OnMessage | crates/aster-raft/src/node.rs:233-335 | dispatch, ignoring strangers |
| RaftMachine.Raft.StartPreVote | crates/aster-raft/src/node.rs:337-370 | pre-vote round, won at once by a quorum of one |
| RaftMachine.Raft.StartElection | crates/aster-raft/src/node.rs:372-402 | new term and own vote persisted before requests go out |
| RaftMachine.Raft.OnPreVoteRequest | crates/aster-raft/src/node.rs:404-426 | a pre-vote changes nothing and answers by log and term |
| RaftMachine.Raft.OnPreVoteResponse | crates/aster-raft/src/node.rs:428-452 | tallying pre-votes, stepping down for newer terms |
| RaftMachine.Raft.OnVoteRequest | crates/aster-raft/src/node.rs:454-488 | one vote a term, only for a log at least as advanced, persisted before the answer |
| RaftMachine.Raft.OnVoteResponse | crates/aster-raft/src/node.rs:490-509 | tallying votes, stepping down for newer terms |
| RaftMachine.Raft.BecomeLeader | crates/aster-raft/src/node.rs:511-549 | the no-op of the new term, fresh progress, broadcast |
| RaftMachine.Raft.BecomeFollower | crates/aster-raft/src/node.rs:551-579 | a newer term is persisted with the vote cleared, pending reads are rejected |
| RaftMachine.Raft.OnAppendEntries | crates/aster-raft/src/node.rs:581-695 | consistency check, scan for the first conflict, truncation, commit and answer |
| RaftMachine.Raft.OnAppendResponse | crates/aster-raft/src/node.rs:719-764 | match and next index bookkeeping, commit advance, conflict back-off |
| RaftMachine.Raft.OnPropose | crates/aster-raft/src/node.rs:766-787 | proposals appended by leaders, rejected with a hint by others |
| RaftMachine.Raft.OnReadIndex | crates/aster-raft/src/node.rs:789-829 | reads accepted only by a leader that has committed in its term |
| RaftMachine.Raft.AcknowledgeRead | crates/aster-raft/src/node.rs:831-848 | a read completes at the recorded index on a quorum |
| RaftMachine.Raft.OnSnapshotBuilt | crates/aster-raft/src/node.rs:850-880 | local compaction at an applied index |
| RaftMachine.Raft.OnInstallSnapshot | crates/aster-raft/src/node.rs:882-1014 | chunks in offset order, digest check, install that keeps a matching suffix |
| RaftMachine.Raft.OnSnapshotResponse | crates/aster-raft/src/node.rs:1016-1047 | transfer progress and completion |
| RaftMachine.Raft.SetCommit | crates/aster-raft/src/node.rs:1070-1086 | the commit index only rises, is persisted, then applied |
| RaftMachine.Raft.AdvanceLeaderCommit | crates/aster-raft/src/node.rs:1088-1102 | only current-term entries a quorum holds are committed by count |
| RaftMachine.Raft.ApplyCommitted | crates/aster-raft/src/node.rs:1104-1127 | every committed entry is applied once, in order |
| RaftMachine.Raft.SendAppend | crates/aster-raft/src/node.rs:1135-1198 | at most 64 entries after the next index, or a snapshot chunk |
| StableStore.StableStore.Persist | crates/aster-runtime/src/stable.rs:177-261 | a mutation is accepted and published, or refused with the state unchanged, as the validators say |
| StableStore.StableStore.BeginSnapshotInstall | crates/aster-runtime/src/stable.rs:263-326 | the install intent becomes durable before anything else changes |
| StableStore.StableStore.CompleteSnapshotInstall | crates/aster-runtime/src/stable.rs:328-346 | the pending install replaces the state, then the intent goes, in two publications |
| StableStore.StableStore.MarkApplied | crates/aster-runtime/src/stable.rs:348-368 | the applied index moves forward within the committed log |
| StableStore.StableStore.InstallReceivedSnapshot | crates/aster-runtime/src/lib.rs:748-759 | every file state the two phases pass through reopens to the installed state; before the intent is durable the store reopens to the old one |
| StableStore.ExecuteConcat | crates/aster-runtime/src/stable.rs:177-261 | executing a list of actions is executing any split of it in turn |
| StoreSafety.StoreRemembers | crates/aster-runtime/src/stable.rs:177-368 | whatever list of actions the store executes, terms, commit and applied indexes never fall, a vote stands for its term, and what was committed is still there unless a snapshot took its place |
| StoreSafety.RestartExactly | crates/aster-raft/src/node.rs:57-147 | a restart is accepted if and only if the node is a participant, the snapshot is this cluster's and checks, the entries are numbered on from it with terms that never fall nor pass the current one, and the indexes are in order; it resumes as a follower with exactly what was on disk |
| BPlusTree.BPlusTree.Insert | crates/aster-storage/src/btree.rs:234-267 | keeps the whole tree invariant and the root, returns the old value, turns the entries into the upserted list, refuses exactly empty and oversized keys |
| BPlusTree.BPlusTree.Delete | crates/aster-storage/src/btree.rs:269-298 | keeps the invariant and the root, returns the old value, removes exactly that key |
| BPlusTree.BPlusTree.Get | crates/aster-storage/src/btree.rs:221-232 | reads the value that the map of the tree's entries holds for the key |
| BPlusTree.BPlusTree.Range | crates/aster-storage/src/btree.rs:300-327 | walks the leaf chain and returns exactly the entries within bounds, in order |
| BPlusTree.BPlusTree.Validate | crates/aster-storage/src/btree.rs:329-354 | after any operations the validator succeeds, with the true counts |
| BPlusTree.BPlusTree.FindLeaf | crates/aster-storage/src/btree.rs:356-379 | the descent reaches the one leaf with everything left below and everything right above the key |
| BPlusTree.BPlusTree.SplitLeaf | crates/aster-storage/src/btree.rs:381-454 | an overfull leaf becomes two linked leaves and the tree stays whole, root id included |
| BPlusTree.BPlusTree.InsertParent | crates/aster-storage/src/btree.rs:456-485 | the new sibling is entered above, splitting as far up as needed |
| BPlusTree.BPlusTree.SplitInternal | crates/aster-storage/src/btree.rs:487-556 | a bursting branch becomes two, or the root grows a level in place |
| BPlusTree.BPlusTree.UnlinkEmptyLeaf | crates/aster-storage/src/btree.rs:558-579 | the empty leaf leaves the chain and the tree |
| BPlusTree.BPlusTree.RemoveChild | crates/aster-storage/src/btree.rs:581-620 | removing a child repairs separators, empties upwards, or collapses the root |
| BPlusTree.BPlusTree.CollapseRoot | crates/aster-storage/src/btree.rs:622-649 | the root takes over its only child's content under its own id |
| BPlusTree.BPlusTree.PropagateMinChange | crates/aster-storage/src/btree.rs:651-672 | the one separator that names a changed minimum is repaired, however high it sits |
| BPlusTree.BPlusTree.RecomputeSeparators | crates/aster-storage/src/btree.rs:674-686 | a branch's separators are again its right children's minima |
| BPlusTree.BPlusTree.SubtreeMin | crates/aster-storage/src/btree.rs:688-703 | the leftmost descent finds the subtree's least key |
| BPlusTree.BPlusTree.RelinkNeighbour | crates/aster-storage/src/btree.rs:705-725 | exactly one link of one neighbour changes |
| BPlusTree.BPlusTree.ReparentChildren | crates/aster-storage/src/btree.rs:727-737 | exactly the listed children get the new parent |
| BTreeEntries.UpsertIsUpdate | crates/aster-storage/src/btree.rs:234-267 | on sorted entries the upsert is map update |
| BTreeEntries.WithoutIsRemoval | crates/aster-storage/src/btree.rs:269-298 | and removal is map removal |
| BTreeScan.InRangeExact | crates/aster-storage/src/btree.rs:300-327 | a range holds exactly the sorted entries within it |
| BTreeScan.ChainIsTree | crates/aster-storage/src/btree.rs:300-327 | the leaf chain read in order is the tree read in order |
| BTreeForest.PlugRep | crates/aster-storage/src/btree.rs:651-686 | pages stand for a tree with a subtree in place if and only if they stand for the subtree and for its surroundings with its minimum |
| BTreeSplit.BalancedLeafSplit | crates/aster-storage/src/btree.rs:871-884 | the first cut with at least half the bytes on the left, or the middle only when there is none |
| BTreeSplit.SplitExists | crates/aster-storage/src/btree.rs:871-884 | an overfull leaf of entries of at most a third always has such a cut, so the fallback is never used |
| BTreeSplit.SplitBound | crates/aster-storage/src/btree.rs:381-454 | both halves of that cut fit |
| BTreeSplit.WriteOverfills | crates/aster-storage/src/btree.rs:234-267 | one insert or replacement that overflows a leaf overfills it by at most one such entry |
| BTreeSplit.BranchSplitFits | crates/aster-storage/src/btree.rs:487-556 | a bursting branch has at least four children and both halves fit |
| BTreeValidate.Validate | crates/aster-storage/src/btree.rs:329-354 | the checker succeeds if and only if the pages form a tree of equal depth with exact separators, parents and leaf chain, and counts it exactly |
| BTreeValidate.ValidateSubtree | crates/aster-storage/src/btree.rs:765-869 | the recursive check succeeds exactly when a subtree stands there, and finds it |
| MvccTheorems.SnapshotReads | crates/aster-engine/src/engine.rs:1106-1115 | in every run a read at a timestamp is the fold of the commits up to it |
| MvccTheorems.ReadsNeverChange | crates/aster-engine/src/engine.rs:1148-1221 | no later command changes a retained snapshot |
| MvccTheorems.FirstCommitterWins | crates/aster-engine/src/engine.rs:1290-1306 | of two committed attempts that wrote one key the later read at or after the earlier's commit |
| MvccTheorems.ExactlyOnce | crates/aster-engine/src/engine.rs:793-849 | each client's applied requests are 1, 2, 3, ... at increasing log indexes |
| MvccTheorems.RequestOutcome | crates/aster-engine/src/engine.rs:1117-1146 | a request is applied if and only if it is its client's next; a duplicate gets the stored result of that sequence and hash; nothing else changes data |
| MvccTheorems.ReplayIsIdempotent | crates/aster-engine/src/engine.rs:793-874 | replaying the last index returns the same outcome and changes nothing |
| MvccTheorems.IndexAgreement | crates/aster-engine/src/engine.rs:667-715 | an index lookup is the table scan filtered by equality, same order, overlay included, from the index's creation on |
| MvccTheorems.BeforeCreation | crates/aster-engine/src/engine.rs:1357-1372 | before its creation an index shows a transaction exactly its own rows that carry the value, so it agrees with the table if and only if no visible row outside the overlay carries it |
| MvccTheorems.StepKeeps | crates/aster-engine/src/engine.rs:793-920 | every command keeps the engine invariant against its history |
| MvccCommits.CommitsExactly | crates/aster-engine/src/engine.rs:1223-1308 | in every run a client's next request commits if and only if its snapshot is neither below the floor nor ahead, its epoch is current, its mutations can be made, every write fits its table and no commit after its snapshot wrote one of its keys; then with its index, its number of writes and the new epoch; otherwise it aborts for the first of these that fails, a conflict naming the last commit to the key |
| MvccCommits.AdmissionExactly | crates/aster-engine/src/engine.rs:1117-1146 | in every run a request is evaluated, answered again or refused, and for what reason, by its place in what its client was served |
| MvccCommits.CommitsTakeEffect | crates/aster-engine/src/engine.rs:1148-1221 | in every run a commit shows each written row from its index on, leaves every other key and every older snapshot alone and grows the catalog by exactly its mutations; an abort leaves rows, indexes and catalog |
| MvccCommits.CommitsAreRecorded | crates/aster-engine/src/engine.rs:1148-1221 | the history these theorems speak of holds exactly the requests answered with a commit, with their indexes, snapshots and rows |
| MvccCommits.CreateAllExactly | crates/aster-engine/src/catalog.rs:179-317 | a list of mutations can be made if and only if each has a new id and name, a sound schema or an existing column, given those before it; the catalog then holds the old entries and the new |
| MvccCommits.ReplayExactly | crates/aster-engine/src/engine.rs:793-874 | another command at the index applied last is answered with that outcome if it carries that hash, a no-op only if that was one, and refused otherwise; nothing changes |
| MvccCommits.GapsRefused | crates/aster-engine/src/engine.rs:793-874 | in every run a command that is neither next nor a replay is refused and leaves engine and history alone |
| MvccCommits.CanonicalUnique | crates/aster-engine/src/transaction.rs:260-282 | canonical attempts with the same header, the same writes and the same mutations are one and the same |
| MvccCommits.ReachedVersioned | crates/aster-engine/src/engine.rs:1186-1209 | in every run each stored version of a row was written by a recorded commit |
| MvccReads.ScanExactly | crates/aster-engine/src/engine.rs:646-665 | in every run a table scan returns, each once and in key order, exactly the rows a transaction finds: its own writes, and under other keys the fold of the commits up to its snapshot |
| MvccReads.SweepExactly | crates/aster-engine/src/engine.rs:876-920 | in every run a sweep beyond the last applied index is refused without effect; any other raises the floor to what was asked, never lowers it, and keeps of every chain exactly the versions above the floor and the live one the floor sees |
| MvccVacuum.VacuumBisimulation | crates/aster-engine/src/engine.rs:876-920 | after a vacuum every later run whose transactions read at or above the floor, with further vacuums in between, gives the same outcomes, and every snapshot still readable sees the same rows, index entries, table scans and index scans |
| MvccVacuum.ScansAlike | crates/aster-engine/src/engine.rs:646-715 | scans cannot tell a vacuumed engine from the original |
| MvccEngine.Engine.ApplyWithRequestHash | crates/aster-engine/src/engine.rs:793-849 | the object applies one entry exactly as specified, or refuses it unchanged |
| MvccEngine.Engine.ApplyNoop | crates/aster-engine/src/engine.rs:851-874 | a no-op changes the applied index, its hash and its outcome, nothing else; a replay changes nothing |
| MvccEngine.Engine.EvaluateAndApply | crates/aster-engine/src/engine.rs:1148-1221 | validation, then writes, indexes, catalog and backfill, as specified |
| MvccEngine.Engine.UpdateSecondary | crates/aster-engine/src/engine.rs:1310-1329 | an index entry is retired and added only when the cell changed |
| MvccEngine.Engine.BackfillIndex | crates/aster-engine/src/engine.rs:1357-1372 | a new index is filled from the rows visible at its commit |
| MvccEngine.Engine.VacuumOffline | crates/aster-engine/src/engine.rs:876-920 | chains are cut at the floor, empty ones dropped |
| MvccEngine.Engine.ScanTable | crates/aster-engine/src/engine.rs:646-665 | stored and overlaid keys merged in key order |
| MvccEngine.Engine.ScanSecondary | crates/aster-engine/src/engine.rs:667-715 | index candidates and overlay, rechecked against the row |
| MvccEngine.ValidateCanonical | crates/aster-engine/src/transaction.rs:260-282 | accepts exactly the attempts in canonical order with keys that fit |
| MvccEngine.Transaction.StageWrite | crates/aster-engine/src/transaction.rs:122-126 | the overlay takes the write under its key |
| MvccEngine.VacuumChain | crates/aster-engine/src/engine.rs:1456-1470 | keeps versions above the floor and the one the floor sees unless it is a tombstone |
| RecoveryProofs.ApplyIsAtomic | crates/aster-storage/src/recovery.rs:338-404 | a crash at any append, write or sync of apply reopens to the old state before the group is logged and to the new one ever after |
| DurablePager.AppliedOrNot | crates/aster-storage/src/recovery.rs:338-404 | in the caller's terms: a crash anywhere in apply reopens to the old database if nothing was logged, and otherwise to the one asked for, every supplied page with its supplied body and all others as they were |
| RecoveryProofs.InstallIsAtomic | crates/aster-storage/src/recovery.rs:411-477 | a crash anywhere in a snapshot install reopens to exactly the old or the new state: old until the pages are synced, new once publication is |
| DurablePager.InstalledOrNot | crates/aster-storage/src/recovery.rs:411-477 | in the caller's terms: a crash anywhere in an install reopens to the old database or to the one asked for, page bodies included |
| RecoveryProofs.CheckpointIsTransparent | crates/aster-storage/src/recovery.rs:482-504 | a crash anywhere in a checkpoint reopens to the same database and replays nothing |
| RecoveryProofs.ReopenExactly | crates/aster-storage/src/recovery.rs:172-236 | a second recovery succeeds, changing nothing, if and only if the first replayed nothing or started without a marker |
| RecoveryProofs.MarkerLocksOut | crates/aster-storage/src/recovery.rs:191-231 | for every established database and every crash in apply once the group is logged, recovery reaches the new state, and a second recovery succeeds if and only if the publication survived or there was no marker; otherwise it is refused |
| RecoveryProofs.RecoveryRestarts | crates/aster-storage/src/recovery.rs:172-295 | recovery interrupted at any of its own writes and run again ends with the same disk if and only if it starts from the same superblock or there was no marker; otherwise it is refused |
| RecoveryProofs.RecoveryIsRestartable | crates/aster-storage/src/recovery.rs:172-295 | without a marker, any number of interrupted recoveries end as one undisturbed recovery does |
| RecoveryProofs.ReplayAgainWritesNothing | crates/aster-storage/src/recovery.rs:238-268 | replaying what was replayed issues no write at all |
| RecoveryProofs.NewestIsRead | crates/aster-storage/src/recovery.rs:134-159 | the superblock read is the newest one in its own slot; none only from an untouched disk; written slots without a superblock are refused |
| RecoveryProofs.FirstOpenCrash | crates/aster-storage/src/recovery.rs:307-336 | a crash while a new disk gets its superblocks leaves it openable and empty, unless the first superblock is torn |
| RecoveryProofs.FirstSuperblockTorn | crates/aster-storage/src/recovery.rs:134-159 | that tear is a possible crash, and the disk is then refused |
| RecoveryProofs.ApplyCrashOpens | crates/aster-storage/src/recovery.rs:338-404 | what opening needs of disk and log holds after a crash anywhere in apply |
| RecoveryProofs.InstallCrashOpens | crates/aster-storage/src/recovery.rs:411-477 | and after a crash anywhere in a snapshot install |
| RecoveryProofs.CheckpointCrashOpens | crates/aster-storage/src/recovery.rs:482-504 | and after a crash anywhere in a checkpoint |
| RecoveryProofs.RecoveryCrashOpens | crates/aster-storage/src/recovery.rs:172-295 | and after a crash anywhere in recovery |
| DurablePager.Media.ReplayGroup | crates/aster-storage/src/recovery.rs:238-268 | exactly the newer images are written, torn pages repaired, misplaced ones refused |
| DurablePager.Media.RecoverDisk | crates/aster-storage/src/recovery.rs:172-236 | the loop over groups is the specified recovery, error cases included, and issues exactly the writes whose crashes are covered |
| DurablePager.Media.PublishSuperblock | crates/aster-storage/src/recovery.rs:270-295 | the other slot gets the next generation, then a sync |
| DurablePager.Pager.Open | crates/aster-storage/src/recovery.rs:307-336 | opens what recovery recovers, and is fit for use if and only if recovery replayed nothing or started without a marker |
| DurablePager.Pager.Apply | crates/aster-storage/src/recovery.rs:338-404 | refuses exactly the listed inputs unchanged; otherwise every given image is in its page, every other page as it was, index, hash, next page and root are those given, the marker is cleared, exactly the crash-safe sequence was issued and the pager stays established |
| DurablePager.Pager.InstallSnapshot | crates/aster-storage/src/recovery.rs:411-477 | refuses exactly the listed inputs unchanged; otherwise every given image is in its page, every other page as it was, the published state is the one given, exactly the crash-safe sequence was issued and the pager stays established |
| DurablePager.Pager.Checkpoint | crates/aster-storage/src/recovery.rs:482-504 | refused if and only if the log's last group is not the current state; otherwise the database is unchanged and the marker bound to it |
| DurablePager.GroupOfFits | crates/aster-storage/src/wal.rs:415-500 | what the checks admit is a group of distinct, bounded pages with sequence numbers inside its own part of the log |
| DurablePager.StampedSupplied | crates/aster-storage/src/wal.rs:455-468 | writing the stamped images puts each caller's body in its own page and touches no other |
| QueryTheorems.QueryEquivalence | crates/aster-sql/src/plan.rs:268-430 | over every engine run, for a bound query over distinct tables with validated parameters, staged rows of the right types and complete index accesses, where the naive plan succeeds the optimized one returns the same rows in order if no value it looks up and no key it hashes is over 16 MiB, and fails otherwise |
| QueryTheorems.QueryAnswered | crates/aster-db/src/executor.rs:172-264 | under the same conditions the optimized plan's rows are what the query means, operator by operator |
| QueryAnswers.NaiveAnswers | crates/aster-db/src/executor.rs:172-264 | for any plan, whatever scans and nested loops return is what the query means: filters, joins, grouping, order, limit and columns, each said without evaluation order or loops |
| QueryMeaning.CompareExactly | crates/aster-sql/src/eval.rs:190-212 | each of the six comparisons holds exactly where the order of the values says, is null exactly with a null, fails exactly across types, and reversing it swaps the operands |
| QueryMeaning.BeforeExactly | crates/aster-core/src/lib.rs:312-331 | that order, taken from the key encoding, is the order of numbers, flags and bytes |
| QueryMeaning.EvaluateMeans | crates/aster-db/src/executor.rs:549-619 | an expression's value is its meaning: minimum and maximum of truth for the connectives, with no short circuit, aggregates from the group |
| QueryMeaning.TypedEvaluates | crates/aster-sql/src/eval.rs:62-142 | a well-typed expression always has a value, its meaning |
| QueryAnswers.FilterSelects | crates/aster-db/src/executor.rs:201-210 | a filter returns exactly the rows its condition is true of, in their order |
| QueryAnswers.JoinMatches | crates/aster-db/src/executor.rs:318-329 | a join returns exactly the pairs its condition is true of, by outer row and then inner row |
| QueryAnswers.ProjectMeans | crates/aster-db/src/executor.rs:249-260 | a projection has a row for each row, each column its expression's meaning |
| QueryAnswers.LimitMeans | crates/aster-db/src/executor.rs:231-248 | a limit keeps that many rows from the front, or all |
| QueryAnswers.SortArranges | crates/aster-db/src/executor.rs:505-547 | ORDER BY returns a rearrangement of its rows in which none is ahead of the row before it by the keys, directions and nulls asked for, and tied rows keep their order |
| QueryAnswers.SortedThroughout | crates/aster-db/src/executor.rs:536-547 | where each key has one type, no row is ahead of any row before it |
| QueryAnswers.AggregateMeans | crates/aster-db/src/executor.rs:430-503 | COUNT, SUM, MIN and MAX are the number, total, least and greatest of the non-null meanings over the rows |
| QueryAnswers.AggregateRowsMean | crates/aster-db/src/executor.rs:391-428 | GROUP BY partitions the rows by equal group values, in key order, one row out for each group with its aggregates, and one for no rows and no grouping |
| QuerySuccess.NaiveSucceeds | crates/aster-db/src/executor.rs:172-264 | scans and nested loops return rows, never more than a million, if and only if the snapshot is readable, the tables are known, no table or join exceeds a million rows and every operator's expressions have values on the rows they are asked of |
| QuerySuccess.FilterSucceeds | crates/aster-db/src/executor.rs:201-210 | a filter succeeds if and only if its condition is decided on every row |
| QuerySuccess.JoinSucceeds | crates/aster-db/src/executor.rs:318-329 | a join succeeds if and only if its condition is decided on every pair and true of at most a million |
| QuerySuccess.SortSucceeds | crates/aster-db/src/executor.rs:505-534 | sorting succeeds if and only if every key has a value on every row |
| QuerySuccess.LimitSucceeds | crates/aster-db/src/executor.rs:231-248 | a limit succeeds if and only if its expression is a number that is not negative |
| QuerySuccess.AggregationSucceeds | crates/aster-db/src/executor.rs:391-503 | grouping succeeds if and only if every group value can be encoded and every aggregate computed: arguments with values, sums of numbers that never leave 64 bits |
| QuerySuccess.AggregateSucceeds | crates/aster-db/src/executor.rs:430-503 | one aggregate has a value if and only if its argument does on every row, a count fits 64 bits, and a sum is of numbers whose running total never leaves them |
| QueryTheorems.OnlyStagedKeysFail | crates/aster-engine/src/engine.rs:579-624 | if the rows of the committed attempts and the staged rows can be encoded, no join key is too large |
| QueryTheorems.FilterExactly | crates/aster-db/src/executor.rs:184-210 | an index access keeps what a scan keeps if and only if the index is no younger than the snapshot or no visible row outside the overlay is one the predicate keeps |
| QueryTheorems.RunConforms | crates/aster-core/src/lib.rs:178-207 | every stored version of every row fits its table's schema, in every run, and can be encoded if the rows of the run's attempts can |
| PlanTheorems.PlanEquivalence | crates/aster-db/src/executor.rs:172-264 | the same for one engine whose index accesses keep what scans keep, for any plan shape |
| PlanTheorems.HashJoinExactly | crates/aster-db/src/executor.rs:343-371 | a hash join equals nested loops for exactly the rows whose keys can be encoded, if and only if the outer key lies in the outer row and the inner key is its own slot |
| QueryLimits.RepeatedTableLosesRows | crates/aster-db/src/executor.rs:355-369 | on the state of a run, a bound query that uses a table twice returns two rows naively and one optimized |
| QueryLimits.YoungIndexLosesRow | crates/aster-db/src/database.rs:807-809 | on the state of a run, a query in a snapshot older than the index loses the row it looks for |
| QueryLimits.OversizedProbeFails | crates/aster-db/src/executor.rs:184-200 | on the state of a run, a validated parameter over 16 MiB fails the optimized plan only |
| QueryLimits.OversizedJoinKeyFails | crates/aster-db/src/executor.rs:266-316 | on the state of a run, two staged rows with one value over 16 MiB are joined by nested loops and fail the optimized plan |
| SqlExpr.ValidationExactly | crates/aster-sql/src/eval.rs:149-179 | validation passes if and only if there is one value for each parameter, of its type, and null only where allowed |
| PlanTheorems.ValidProbes | crates/aster-sql/src/eval.rs:149-179 | once parameters are validated only size can fail an index probe |
| PlanProofs.DistinctFromBinds | crates/aster-db/src/executor.rs:343-389 | distinct tables put every hash key in its place |
| PlanProofs.HashJoinSame | crates/aster-db/src/executor.rs:266-330 | keys in place: bucketing by encoded value and rechecking is nested loops if every key of both sides can be encoded, and an error otherwise |
| PlanProofs.KeptRowsCarry | crates/aster-sql/src/plan.rs:324-380 | rows a predicate keeps carry the value of the conjunct chosen for the index |
| SqlExpr.ConjunctHolds | crates/aster-sql/src/eval.rs:107-131 | short circuit or not, a conjunction holds only where every conjunct does |
| SqlExpr.ShortCircuitIsKleene | crates/aster-sql/src/eval.rs:18-54 | where both operands have values, short circuit is Kleene logic, commutative and dual under negation |
| ExecutorLoops.HashJoinLoop | crates/aster-db/src/executor.rs:276-316 | buckets and probe loop compute the specified hash join |
| ExecutorLoops.BuildBuckets | crates/aster-db/src/executor.rs:281-295 | every bucket holds exactly the inner rows of its key, in scan order |
| ExecutorLoops.NestedLoopJoin | crates/aster-db/src/executor.rs:318-329 | the nested loops compute the specified join |
| ExecutorLoops.AggregateLoop | crates/aster-db/src/executor.rs:391-428 | grouping and aggregation as specified, groups in key order |
| ExecutorLoops.GroupRows | crates/aster-db/src/executor.rs:397-408 | every group holds exactly the rows of its key, in input order |
| ExecutorLoops.JoinExact | crates/aster-db/src/executor.rs:318-329 | a row is in the join exactly as often as there are pairs that give it and the condition holds on |
| ExecutorLoops.FilterExact | crates/aster-db/src/executor.rs:201-210 | a filter keeps exactly the rows its predicate holds on, as often as they occur |
| ExecutorLoops.GroupValueFound | crates/aster-db/src/executor.rs:549-566 | above a group an aggregate expression has the value computed for the group |
| ExecutorLoops.GroupsPartition | crates/aster-db/src/executor.rs:391-428 | group sizes add up to the input |
| ExecutorLoops.SameGroup | crates/aster-db/src/executor.rs:398-405 | two rows share a group if and only if their group values are equal |
| ExecutorLoops.SumIsTotal | crates/aster-db/src/executor.rs:456-477 | SUM is the mathematical sum of the non-null values, null if and only if there is none |
| ExecutorLoops.SumLoop | crates/aster-db/src/executor.rs:456-477 | the accumulator loop computes it, refusing overflow |
| ExecutorLoops.ExtremeIsExtreme | crates/aster-db/src/executor.rs:478-501 | MIN and MAX are a value of the rows that none beats, null if and only if there is none |
| ExecutorLoops.ExtremeLoop | crates/aster-db/src/executor.rs:478-501 | the selection loop computes it |
| ExecutorLoops.SortIsSorted | crates/aster-db/src/executor.rs:505-547 | sorting is in order and keeps every row |
| ExecutorLoops.SortIsStable | crates/aster-db/src/executor.rs:505-547 | and is a rearrangement in which rows with equal keys keep the order they came in |
| OrderedKeys.OrderedExactly | crates/aster-core/src/lib.rs:312-331 | within a type the encodings compare as the values do |
| OrderedKeys.OrderedAcross | crates/aster-core/src/lib.rs:312-331 | across types too: null, then numbers, flags, texts and blobs, each type in its own order |
| OrderedKeys.PrefixFree | crates/aster-core/src/lib.rs:312-331 | no encoding is a proper prefix of another and encodings are injective |
| OrderedKeys.MvccOrder | crates/aster-core/src/lib.rs:333-343 | version keys sort by table, then key, then newest commit first |
| OrderedKeys.EncodeMemcomparable | crates/aster-core/src/lib.rs:350-360 | the byte loop appends the escaped string and its terminator |
| RowCodec.RowRoundTrip | crates/aster-core/src/lib.rs:232-261 | decoding inverts encoding for every row that fits |
| RowCodec.RowInverse | crates/aster-core/src/lib.rs:246-261 | whatever decodes is the encoding of what it decodes to |
| RowCodec.WriteRow | crates/aster-core/src/lib.rs:232-244 | the encoder's loop, refusing exactly the rows that do not fit |
| HistoryCheck.CheckLinearizable | tools/history_check.py:73-119 | refuses exactly malformed histories; valid if and only if some order is a permutation, respects real time and is legal, and returns such an order |
| HistoryCheck.Searcher.Search | tools/history_check.py:97-116 | finds a completion, or none exists; remembered states of this depth or deeper lead nowhere; ends as fewer operations remain |
| HistoryCheck.LegalExactly | tools/history_check.py:46-63 | an order is legal if and only if every get saw, and every compare-and-set reports on, the last value written to its key before it, and no put was refused |
| HistoryCheck.CompletionIsLinearization | tools/history_check.py:88-118 | step-by-step completions are exactly the linearizations |

## Left out

- Liveness, timer durations, sockets, the Tokio runtime, server, client and wire protocol: time is a nondeterministic tick.
- Exhausted 64-bit terms, indexes, page ids and generations: numbers are unbounded, so those error branches do not occur.
- `scan_bytes` and frame checksums of the write-ahead log: the log is a sequence of groups that become durable whole; group sequence numbers follow the frame sizes.
- The persist, file rename and fsync calls below `StableStore`: each publication is atomic.
- Page bytes, checksums, `heap.rs` and `buffer.rs`: a page is a node with its encoded size.
- Staged (uncommitted) tables and indexes of a transaction, engine statistics, identifier syntax, snapshot records of the engine and `execute_query`.
- Lexer, parser, binder, EXPLAIN and statement dispatch: plans are any plans that are bound.
- The snapshot-isolation checker of `tools/history_check.py`, and nested or floating-point values in histories; the bitmask of finished operations is a set.
- UTF-8 validity of decoded text, and error message texts; the cursor of the row decoder is the rest of its input.
- BPlusTree.BPlusTree.Insert: keys of one width and entries of at most a third of a leaf are a precondition; outside it a split may leave a half that does not fit.
- DurablePager.Pager.Open: that the log's groups have increasing indexes and pages lie where they say is a precondition and not derived from the bytes scanned; every operation and every crash the proofs cover keeps it (`ApplyCrashOpens` and its siblings).
- RaftTheorems.ReadBarrier: holds for runs that are fresh for the read; the runtime's counter makes contexts unused between restarts only.
- RaftTheorems.StateMachineSafety: holds for covering runs; `CappedBatchAppliesForeignEntry` is a run where it fails.
- RaftTheorems.CommittedStaysCommitted: holds for covering runs, for the same reason.
- QueryTheorems.QueryEquivalence: says nothing where the naive plan fails, and counts a table used twice among the exceptions.
