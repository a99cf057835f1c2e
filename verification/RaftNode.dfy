/** The consensus step function: what each external event makes a node do.
    Every handler returns the next node and the actions it emits, in order. */
module RaftNode {
  import opened Wrappers
  import opened Ordering
  import opened RaftTypes
  import opened RaftLog

  const MAX_APPEND_ENTRIES: nat := 64
  const SNAPSHOT_CHUNK_BYTES: nat := 16 * 1024
  const MAX_SNAPSHOT_BYTES: nat := 512 * 1024 * 1024

  datatype Progress = Progress(matchIndex: nat, nextIndex: nat, snapshotOffset: Option<nat>)

  datatype PendingRead = PendingRead(index: nat, acknowledgements: set<NodeId>)

  datatype IncomingSnapshot = IncomingSnapshot(metadata: SnapshotMetadata, data: Bytes)

  datatype Node = Node(
    id: NodeId,
    configuration: Configuration,
    hardState: HardState,
    log: LogView,
    snapshot: Option<PersistentSnapshot>,
    appliedIndex: nat,
    role: Role,
    leaderId: Option<NodeId>,
    campaignTerm: Option<nat>,
    votes: set<NodeId>,
    progress: map<NodeId, Progress>,
    recentActive: set<NodeId>,
    pendingReads: map<Bytes, PendingRead>,
    incomingSnapshot: Option<IncomingSnapshot>)
  {
    function Term(): nat {
      hardState.currentTerm
    }

    function Peers(): seq<NodeId> {
      SortedIds(configuration.participants - {id})
    }

    /** What must be on disk. */
    function Stable(): StableState {
      StableState(hardState, snapshot, log.entries, appliedIndex)
    }

    predicate CandidateIsUpToDate(index: nat, term: nat) {
      term > log.LastTerm() || (term == log.LastTerm() && index >= log.LastIndex())
    }

    function Matched(): map<NodeId, nat> {
      map v | v in configuration.participants :: if v in progress then progress[v].matchIndex else 0
    }
  }

  datatype Out = Out(node: Node, actions: seq<Action>)

  function Then(a: Out, b: Out): Out {
    Out(b.node, a.actions + b.actions)
  }

  // ---------------------------------------------------------------- recovery

  datatype RecoveryError = NotVoter | InvalidSnapshot | InvalidLog | InvalidIndexes

  predicate EntriesRecoverable(entries: seq<LogEntry>, expected: nat, previousTerm: nat, currentTerm: nat)
    decreases |entries|
  {
    entries == [] ||
    (&& entries[0].index == expected
     && previousTerm <= entries[0].term <= currentTerm
     && EntriesRecoverable(entries[1..], expected + 1, entries[0].term, currentTerm))
  }

  function Recover(id: NodeId, configuration: Configuration, stable: StableState): Result<Node, RecoveryError> {
    if !configuration.Contains(id) then Err(NotVoter)
    else if stable.snapshot.Some?
      && !(stable.snapshot.value.Validate() && stable.snapshot.value.metadata.configuration == configuration) then
      Err(InvalidSnapshot)
    else
      var log := LogView.New(stable.snapshot, stable.entries);
      if !EntriesRecoverable(stable.entries, log.baseIndex + 1, log.baseTerm, stable.hardState.currentTerm)
        then Err(InvalidLog)
      else if !(log.baseIndex <= stable.hardState.commitIndex <= log.LastIndex()) then Err(InvalidIndexes)
      else if !(log.baseIndex <= stable.appliedIndex <= stable.hardState.commitIndex) then Err(InvalidIndexes)
      else Ok(Node(id, configuration, stable.hardState, log, stable.snapshot, stable.appliedIndex,
                   Follower, None, None, {}, map[], {}, map[], None))
  }

  // -------------------------------------------------------------------- step

  function Step(n: Node, input: Input): Out {
    var replay := ApplyCommitted(n);
    var m := replay.node;
    Then(replay,
         match input
         case TickInput(tick) => OnTick(m, tick)
         case Receive(from, message) => OnMessage(m, from, message)
         case Propose(id, command) => OnPropose(m, id, command)
         case ReadIndex(context) => OnReadIndex(m, context)
         case SnapshotBuilt(snapshot) => OnSnapshotBuilt(m, snapshot))
  }

  function OnTick(n: Node, tick: Tick): Out {
    match tick
    case Election => if n.role != Leader then StartPreVote(n) else Out(n, [])
    case Heartbeat =>
      if n.role == Leader then Out(n, Broadcast(n, n.Peers(), None) + [ResetHeartbeatTimer]) else Out(n, [])
    case CheckQuorum =>
      if n.role != Leader then Out(n, [])
      else if n.configuration.Quorum(n.recentActive) then
        var m := n.(recentActive := {n.id});
        Out(m, Broadcast(m, m.Peers(), None))
      else
        FollowAndReset(n, n.Term())
  }

  function OnMessage(n: Node, from: NodeId, message: Message): Out {
    if !n.configuration.Contains(from) || from == n.id then Out(n, [])
    else
      match message
      case PreVoteRequest(t, c, i, lt) => OnPreVoteRequest(n, from, t, c, i, lt)
      case PreVoteResponse(rt, pt, granted) => OnPreVoteResponse(n, from, rt, pt, granted)
      case RequestVote(t, c, i, lt) => OnVoteRequest(n, from, t, c, i, lt)
      case RequestVoteResponse(t, granted) => OnVoteResponse(n, from, t, granted)
      case AppendEntries(_, _, _, _, _, _, _) => OnAppendEntries(n, from, message)
      case AppendEntriesResponse(_, _, _, _, _, _) => OnAppendResponse(n, from, message)
      case InstallSnapshot(_, _, _, _, _, _) => OnInstallSnapshot(n, from, message)
      case InstallSnapshotResponse(_, _, _, _, _) => OnSnapshotResponse(n, from, message)
  }

  // --------------------------------------------------------------- elections

  function ToAll(peers: seq<NodeId>, message: Message): seq<Action> {
    seq(|peers|, i requires 0 <= i < |peers| => Send(peers[i], message))
  }

  function StartPreVote(n: Node): Out {
    var prospective := n.Term() + 1;
    var m := n.(role := PreCandidate, leaderId := None, campaignTerm := Some(prospective), votes := {n.id});
    var begun := Out(m, [RoleChanged(PreCandidate, n.Term()), ResetElectionTimer]);
    if m.configuration.Quorum(m.votes) then Then(begun, StartElection(m, prospective))
    else Then(begun, Out(m, ToAll(m.Peers(), PreVoteRequest(prospective, m.id, m.log.LastIndex(), m.log.LastTerm()))))
  }

  function StartElection(n: Node, term: nat): Out {
    var hs := n.hardState.(currentTerm := term, votedFor := Some(n.id));
    var m := n.(hardState := hs, role := Candidate, campaignTerm := None, votes := {n.id});
    var begun := Out(m, [Persist(SetHardState(hs)), RoleChanged(Candidate, term), ResetElectionTimer]);
    if m.configuration.Quorum(m.votes) then Then(begun, BecomeLeader(m))
    else Then(begun, Out(m, ToAll(m.Peers(), RequestVote(term, m.id, m.log.LastIndex(), m.log.LastTerm()))))
  }

  function OnPreVoteRequest(n: Node, from: NodeId, prospective: nat, candidate: NodeId, lastIndex: nat,
                            lastTerm: nat): Out {
    if candidate != from then Out(n, [])
    else
      var granted := prospective > n.Term() && n.CandidateIsUpToDate(lastIndex, lastTerm);
      Out(n, [Send(from, PreVoteResponse(n.Term(), prospective, granted))])
  }

  function OnPreVoteResponse(n: Node, from: NodeId, responderTerm: nat, prospective: nat, granted: bool): Out {
    if responderTerm > n.Term() then FollowAndReset(n, responderTerm)
    else if n.role != PreCandidate || n.campaignTerm != Some(prospective) || !granted then Out(n, [])
    else
      var m := n.(votes := n.votes + {from});
      if m.configuration.Quorum(m.votes) then StartElection(m, prospective) else Out(m, [])
  }

  function FollowAndReset(n: Node, term: nat): Out {
    var f := BecomeFollower(n, term, None);
    Then(f, Out(f.node, [ResetElectionTimer]))
  }

  function OnVoteRequest(n: Node, from: NodeId, term: nat, candidate: NodeId, lastIndex: nat, lastTerm: nat): Out {
    if candidate != from then Out(n, [])
    else
      var f := if term > n.Term() then BecomeFollower(n, term, None) else Out(n, []);
      Then(f, AnswerVote(f.node, term, candidate, lastIndex, lastTerm))
  }

  function AnswerVote(n: Node, term: nat, candidate: NodeId, lastIndex: nat, lastTerm: nat): Out {
    var hs := n.hardState;
    if term == hs.currentTerm && hs.votedFor in {None, Some(candidate)}
      && n.CandidateIsUpToDate(lastIndex, lastTerm) then
      var voted := hs.(votedFor := Some(candidate));
      Out(n.(hardState := voted, leaderId := None),
          (if hs.votedFor == Some(candidate) then [] else [Persist(SetHardState(voted))])
          + [ResetElectionTimer, Send(candidate, RequestVoteResponse(hs.currentTerm, true))])
    else
      Out(n, [Send(candidate, RequestVoteResponse(hs.currentTerm, false))])
  }

  function OnVoteResponse(n: Node, from: NodeId, term: nat, granted: bool): Out {
    if term > n.Term() then FollowAndReset(n, term)
    else if n.role != Candidate || term != n.Term() || !granted then Out(n, [])
    else
      var m := n.(votes := n.votes + {from});
      if m.configuration.Quorum(m.votes) then BecomeLeader(m) else Out(m, [])
  }

  /** The leader's volatile view of the cluster right after its first entry. */
  function InitialProgress(n: Node, index: nat): map<NodeId, Progress> {
    map v | v in n.configuration.participants :: Progress(if v == n.id then index else 0, index + 1, None)
  }

  function BecomeLeader(n: Node): Out {
    var entry := LogEntry(n.log.LastIndex() + 1, n.Term(), Noop);
    var m := n.(role := Leader, leaderId := Some(n.id), votes := {}, pendingReads := map[],
                log := n.log.Append([entry]), progress := InitialProgress(n, entry.index),
                recentActive := n.configuration.participants);
    var begun := Out(m, [Persist(Append([entry])), RoleChanged(Leader, n.Term()), ResetHeartbeatTimer]);
    var advanced := AdvanceLeaderCommit(m);
    Then(Then(begun, advanced), Out(advanced.node, Broadcast(advanced.node, advanced.node.Peers(), None)))
  }

  function RejectReads(contexts: seq<Bytes>): seq<Action> {
    seq(|contexts|, i requires 0 <= i < |contexts| => ReadRejected(contexts[i], LeadershipLost))
  }

  function BecomeFollower(n: Node, term: nat, leader: Option<NodeId>): Out {
    var hs := if term > n.Term() then n.hardState.(currentTerm := term, votedFor := None) else n.hardState;
    var m := n.(hardState := hs, pendingReads := map[], role := Follower, leaderId := leader,
                campaignTerm := None, votes := {}, progress := map[], recentActive := {});
    Out(m, (if term > n.Term() then [Persist(SetHardState(hs))] else [])
           + RejectReads(Sorted(n.pendingReads.Keys))
           + (if n.role != Follower then [RoleChanged(Follower, hs.currentTerm)] else []))
  }

  // -------------------------------------------------------------- replication

  /** How an incoming batch meets the local log. */
  datatype Scan = Present | Replaces(index: nat) | Gap | ChangedAt(index: nat, position: nat)

  function ScanFrom(log: LogView, commit: nat, entries: seq<LogEntry>, position: nat): Scan
    decreases |entries| - position
  {
    if position >= |entries| then Present
    else
      var e := entries[position];
      match log.Term(e.index)
      case Some(t) =>
        if t == e.term then ScanFrom(log, commit, entries, position + 1)
        else if e.index <= commit then Replaces(e.index)
        else ChangedAt(e.index, position)
      case None =>
        if e.index != log.LastIndex() + 1 then Gap else ChangedAt(e.index, position)
  }

  predicate ValidEntrySequence(previousIndex: nat, previousTerm: nat, leaderTerm: nat, entries: seq<LogEntry>)
    decreases |entries|
  {
    entries == [] ||
    (&& entries[0].index == previousIndex + 1
     && previousTerm <= entries[0].term <= leaderTerm
     && ValidEntrySequence(previousIndex + 1, entries[0].term, leaderTerm, entries[1..]))
  }

  function RejectAppend(n: Node, to: NodeId, context: Option<Bytes>, conflictIndex: nat,
                        conflictTerm: Option<nat>): seq<Action> {
    [Send(to, AppendEntriesResponse(n.Term(), false, 0, conflictIndex, conflictTerm, context))]
  }

  function OnAppendEntries(n: Node, from: NodeId, m: Message): Out
    requires m.AppendEntries?
  {
    if m.leaderId != from then Out(n, [])
    else if m.term < n.Term() then Out(n, RejectAppend(n, from, m.readContext, n.log.LastIndex() + 1, None))
    else
      var f := BecomeFollower(n, m.term, Some(from));
      Then(Then(f, Out(f.node, [ResetElectionTimer])), CheckPrevious(f.node, from, m))
  }

  /** The consistency check on the entry before the batch. */
  function CheckPrevious(n: Node, from: NodeId, m: Message): Out
    requires m.AppendEntries?
  {
    var local := n.log.Term(m.prevLogIndex);
    if m.prevLogIndex < n.log.baseIndex then
      Out(n, RejectAppend(n, from, m.readContext, n.log.baseIndex + 1, Some(n.log.baseTerm)))
    else if local.None? then
      Out(n, RejectAppend(n, from, m.readContext, n.log.LastIndex() + 1, None))
    else if local.value != m.prevLogTerm then
      Out(n, RejectAppend(n, from, m.readContext, n.log.FirstIndexOfTerm(m.prevLogIndex, local.value), local))
    else if !ValidEntrySequence(m.prevLogIndex, m.prevLogTerm, m.term, m.entries) then
      Out(n, RejectAppend(n, from, m.readContext, m.prevLogIndex + 1, None))
    else
      match ScanFrom(n.log, n.hardState.commitIndex, m.entries, 0)
      case Replaces(index) => Out(n, [Fatal(ReplacedCommitted(index))])
      case Gap => Out(n, RejectAppend(n, from, m.readContext, n.log.LastIndex() + 1, None))
      case Present => FinishAppend(n, from, m)
      case ChangedAt(index, position) =>
        var w := WriteSuffix(n, index, m.entries[if position <= |m.entries| then position else |m.entries|..]);
        Then(w, FinishAppend(w.node, from, m))
  }

  function WriteSuffix(n: Node, from: nat, suffix: seq<LogEntry>): Out {
    Out(n.(log := n.log.TruncateAndAppend(from, suffix)),
        [Persist(if from <= n.log.LastIndex() then TruncateAndAppend(from, suffix) else Append(suffix))])
  }

  function FinishAppend(n: Node, from: NodeId, m: Message): Out
    requires m.AppendEntries?
  {
    var last := n.log.LastIndex();
    var c := SetCommit(n, if m.leaderCommit <= last then m.leaderCommit else last);
    Then(c, Out(c.node,
                [Send(from, AppendEntriesResponse(c.node.Term(), true, m.prevLogIndex + |m.entries|, 0, None,
                                                  m.readContext))]))
  }

  function OnAppendResponse(n: Node, from: NodeId, m: Message): Out
    requires m.AppendEntriesResponse?
  {
    if m.term > n.Term() then FollowAndReset(n, m.term)
    else if n.role != Leader || m.term != n.Term() then Out(n, [])
    else
      var active := n.(recentActive := n.recentActive + {from});
      var read := if m.readContext.Some? then AcknowledgeRead(active, from, m.readContext.value) else Out(active, []);
      Then(read, if m.success then MatchReported(read.node, from, m) else ConflictReported(read.node, from, m))
  }

  function Raised(p: Progress, matchIndex: nat): Progress {
    Progress(if matchIndex <= p.matchIndex then p.matchIndex else matchIndex,
             if matchIndex + 1 <= p.nextIndex then p.nextIndex else matchIndex + 1,
             None)
  }

  function MatchReported(n: Node, from: NodeId, m: Message): Out
    requires m.AppendEntriesResponse?
  {
    var p := if from in n.progress then n.(progress := n.progress[from := Raised(n.progress[from], m.matchIndex)])
        else n;
    var advanced := AdvanceLeaderCommit(p);
    Then(advanced, Out(advanced.node, if m.matchIndex < advanced.node.log.LastIndex()
                       then SendAppend(advanced.node, from, None) else []))
  }

  /** Where to resume after a rejection. */
  function ResumeIndex(n: Node, m: Message): nat
    requires m.AppendEntriesResponse?
  {
    var known := if m.conflictTerm.Some? then n.log.LastIndexOfTerm(m.conflictTerm.value) else None;
    var next := if known.Some? then known.value + 1 else m.conflictIndex;
    if next < 1 then 1 else next
  }

  function Lowered(p: Progress, next: nat): Progress {
    var below := if p.nextIndex <= 2 then 1 else p.nextIndex - 1;
    p.(nextIndex := if next <= below then next else below, snapshotOffset := None)
  }

  function ConflictReported(n: Node, from: NodeId, m: Message): Out
    requires m.AppendEntriesResponse?
  {
    var next := ResumeIndex(n, m);
    var p := if from in n.progress then n.(progress := n.progress[from := Lowered(n.progress[from], next)]) else n;
    Out(p, SendAppend(p, from, None))
  }

  function OnPropose(n: Node, id: nat, command: Bytes): Out {
    if n.role != Leader then Out(n, [ProposalRejected(id, n.leaderId)])
    else
      var entry := LogEntry(n.log.LastIndex() + 1, n.Term(), Command(id, command));
      var m := n.(log := n.log.Append([entry]),
                  progress := if n.id in n.progress
                              then n.progress[n.id := n.progress[n.id].(matchIndex := entry.index,
                                                                        nextIndex := entry.index + 1)]
                              else n.progress);
      var advanced := AdvanceLeaderCommit(m);
      Then(Then(Out(m, [Persist(Append([entry]))]), advanced),
           Out(advanced.node, Broadcast(advanced.node, advanced.node.Peers(), None)))
  }

  // ------------------------------------------------------------- linear reads

  function OnReadIndex(n: Node, context: Bytes): Out {
    if n.role != Leader then Out(n, [ReadRejected(context, NotLeader)])
    else if context == [] || context in n.pendingReads then Out(n, [ReadRejected(context, InvalidContext)])
    else if n.log.Term(n.hardState.commitIndex) != Some(n.Term()) then Out(n, [ReadRejected(context, LeaderNotReady)])
    else
      var m := n.(pendingReads := n.pendingReads[context := PendingRead(n.hardState.commitIndex, {n.id})]);
      if m.configuration.Quorum({n.id}) then CompleteRead(m, context)
      else Out(m, Broadcast(m, m.Peers(), Some(context)))
  }

  function AcknowledgeRead(n: Node, from: NodeId, context: Bytes): Out {
    if context !in n.pendingReads then Out(n, [])
    else
      var pending := n.pendingReads[context];
      var acked := pending.(acknowledgements := pending.acknowledgements + {from});
      var m := n.(pendingReads := n.pendingReads[context := acked]);
      if m.configuration.Quorum(acked.acknowledgements) then CompleteRead(m, context) else Out(m, [])
  }

  function CompleteRead(n: Node, context: Bytes): Out {
    if context !in n.pendingReads then Out(n, [])
    else Out(n.(pendingReads := n.pendingReads - {context}), [ReadReady(context, n.pendingReads[context].index)])
  }

  // ---------------------------------------------------------------- snapshots

  function OnSnapshotBuilt(n: Node, snapshot: PersistentSnapshot): Out {
    var d := snapshot.metadata;
    if && snapshot.Validate()
       && d.configuration == n.configuration
       && n.log.baseIndex <= d.lastIncludedIndex <= n.appliedIndex
       && n.log.Term(d.lastIncludedIndex) == Some(d.lastIncludedTerm)
    then
      var log := n.log.Compact(d.lastIncludedIndex, d.lastIncludedTerm, true);
      Out(n.(log := log, snapshot := Some(snapshot)), [Persist(CompactSnapshot(snapshot, log.entries))])
    else Out(n, [SnapshotRejected])
  }

  function SnapshotReply(n: Node, to: NodeId, accepted: bool, nextOffset: nat, done: bool,
                         matchIndex: nat): seq<Action> {
    [Send(to, InstallSnapshotResponse(n.Term(), accepted, nextOffset, done, matchIndex))]
  }

  function OnInstallSnapshot(n: Node, from: NodeId, m: Message): Out
    requires m.InstallSnapshot?
  {
    if m.leaderId != from then Out(n, [])
    else if m.term < n.Term() then Out(n, SnapshotReply(n, from, false, 0, false, 0))
    else
      var f := BecomeFollower(n, m.term, Some(from));
      Then(Then(f, Out(f.node, [ResetElectionTimer])), ReceiveChunk(f.node, from, m))
  }

  function ReceiveChunk(n: Node, from: NodeId, m: Message): Out
    requires m.InstallSnapshot?
  {
    var d := m.metadata;
    if d.configuration != n.configuration || d.byteLen > MAX_SNAPSHOT_BYTES || d.lastIncludedIndex == 0 then
      Out(n.(incomingSnapshot := None), SnapshotReply(n, from, false, 0, false, 0))
    else if d.lastIncludedIndex <= n.appliedIndex then
      Out(n, SnapshotReply(n, from, true, d.byteLen, true, d.lastIncludedIndex))
    else
      var same := n.incomingSnapshot.Some? && n.incomingSnapshot.value.metadata == d;
      var r := if m.offset == 0 && !same then n.(incomingSnapshot := Some(IncomingSnapshot(d, []))) else n;
      if r.incomingSnapshot.None? || r.incomingSnapshot.value.metadata != d then
        Out(r, SnapshotReply(r, from, false, 0, false, 0))
      else
        AppendChunk(r, from, m, r.incomingSnapshot.value.data)
  }

  function AppendChunk(n: Node, from: NodeId, m: Message, have: Bytes): Out
    requires m.InstallSnapshot?
  {
    var d := m.metadata;
    if m.offset < |have| then
      var matches := m.offset + |m.data| <= |have| && have[m.offset..m.offset + |m.data|] == m.data;
      Out(n, SnapshotReply(n, from, matches, |have|, false, 0))
    else if m.offset != |have| || |have| + |m.data| > d.byteLen then
      Out(n, SnapshotReply(n, from, false, |have|, false, 0))
    else
      var all := have + m.data;
      if !m.done then
        Out(n.(incomingSnapshot := Some(IncomingSnapshot(d, all))), SnapshotReply(n, from, true, |all|, false, 0))
      else if |all| != d.byteLen || Sha256(all) != d.sha256 then
        Out(n.(incomingSnapshot := None), SnapshotReply(n, from, false, 0, false, 0))
      else
        InstallReceivedSnapshot(n, from, PersistentSnapshot(d, all))
  }

  function InstallReceivedSnapshot(n: Node, from: NodeId, snapshot: PersistentSnapshot): Out {
    var d := snapshot.metadata;
    var retain := n.log.Term(d.lastIncludedIndex) == Some(d.lastIncludedTerm);
    var log := n.log.Compact(d.lastIncludedIndex, d.lastIncludedTerm, retain);
    var commit := if n.hardState.commitIndex <= d.lastIncludedIndex then d.lastIncludedIndex
        else n.hardState.commitIndex;
    var hs := n.hardState.(commitIndex := commit);
    Out(n.(incomingSnapshot := None, log := log, snapshot := Some(snapshot), hardState := hs,
           appliedIndex := d.lastIncludedIndex),
        [Persist(InstallReceived(snapshot, log.entries, hs))]
        + SnapshotReply(n, from, true, d.byteLen, true, d.lastIncludedIndex))
  }

  function OnSnapshotResponse(n: Node, from: NodeId, m: Message): Out
    requires m.InstallSnapshotResponse?
  {
    if m.term > n.Term() then FollowAndReset(n, m.term)
    else if n.role != Leader || m.term != n.Term() then Out(n, [])
    else
      var active := n.(recentActive := n.recentActive + {from});
      if from !in active.progress then Out(active, [])
      else if m.done && m.accepted then
        var p := active.(progress := active.progress[from := Raised(active.progress[from], m.matchIndex)]);
        var advanced := AdvanceLeaderCommit(p);
        Then(advanced, Out(advanced.node, SendAppend(advanced.node, from, None)))
      else
        var p := active.(progress := active.progress[from :=
                   active.progress[from].(snapshotOffset := Some(if m.accepted then m.nextOffset else 0))]);
        Out(p, SendAppend(p, from, None))
  }

  // ------------------------------------------------------------------- commit

  function SetCommit(n: Node, commit: nat): Out {
    if commit <= n.hardState.commitIndex then Out(n, [])
    else if commit > n.log.LastIndex() then Out(n, [Fatal(CommitBeyondEnd(commit, n.log.LastIndex()))])
    else
      var hs := n.hardState.(commitIndex := commit);
      var m := n.(hardState := hs);
      Then(Out(m, [Persist(SetHardState(hs))]), ApplyCommitted(m))
  }

  function AdvanceLeaderCommit(n: Node): Out {
    if n.role != Leader then Out(n, [])
    else
      var q := n.configuration.QuorumIndex(n.Matched());
      if q > n.hardState.commitIndex && n.log.Term(q) == Some(n.Term()) then SetCommit(n, q) else Out(n, [])
  }

  function ApplyCommitted(n: Node): Out
    decreases n.hardState.commitIndex - n.appliedIndex
  {
    if n.appliedIndex >= n.hardState.commitIndex then Out(n, [])
    else
      match n.log.Entry(n.appliedIndex + 1)
      case None => Out(n, [Fatal(CommittedUnavailable(n.appliedIndex + 1))])
      case Some(entry) =>
        var m := n.(appliedIndex := n.appliedIndex + 1);
        Then(Out(m, [Apply(entry)]
                    + (if n.role == Leader && entry.payload.Command?
                       then [ProposalCommitted(entry.payload.id, entry.index)] else [])),
             ApplyCommitted(m))
  }

  // ------------------------------------------------------------------ sending

  function Broadcast(n: Node, peers: seq<NodeId>, context: Option<Bytes>): seq<Action> {
    if peers == [] then [] else SendAppend(n, peers[0], context) + Broadcast(n, peers[1..], context)
  }

  function SendAppend(n: Node, peer: NodeId, context: Option<Bytes>): seq<Action> {
    if peer !in n.progress then []
    else
      var p := n.progress[peer];
      if p.nextIndex <= n.log.baseIndex then
        SendSnapshotChunk(n, peer, if p.snapshotOffset.Some? then p.snapshotOffset.value else 0)
      else
        var next := if p.nextIndex <= n.log.LastIndex() + 1 then p.nextIndex else n.log.LastIndex() + 1;
        var previous := next - 1;
        match n.log.Term(previous)
        case None => [Fatal(MissingPreviousTerm(previous))]
        case Some(t) =>
          [Send(peer, AppendEntries(n.Term(), n.id, previous, t, n.log.EntriesFrom(next, MAX_APPEND_ENTRIES),
                                    n.hardState.commitIndex, context))]
  }

  function SendSnapshotChunk(n: Node, peer: NodeId, offset: nat): seq<Action> {
    match n.snapshot
    case None => [Fatal(MissingSnapshot(peer))]
    case Some(s) =>
      var start := if offset <= |s.data| then offset else |s.data|;
      var end := if start + SNAPSHOT_CHUNK_BYTES <= |s.data| then start + SNAPSHOT_CHUNK_BYTES else |s.data|;
      [Send(peer, InstallSnapshot(n.Term(), n.id, s.metadata, start, s.data[start..end], end == |s.data|))]
  }
}
