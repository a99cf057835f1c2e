/** Linear reads over every run: no read a leader took on is dropped without an answer, and
    every answer is to a read that was waiting for it. */
module RaftReads {
  import opened Wrappers
  import opened Ordering
  import opened RaftTypes
  import opened RaftLog
  import opened RaftNode
  import opened RaftCluster
  import opened RaftElections
  import opened RaftTheorems
  import opened RaftPreVotes
  import opened RaftProposals

  /** Only a leader has reads waiting. */
  predicate Tidy(n: Node) {
    n.role != Leader ==> n.pendingReads == map[]
  }

  /** A waiting read still waits, or has its answer: its index, or that leadership was lost. */
  predicate Served(n: Node, o: Out, c: Bytes) {
    c in n.pendingReads ==>
      || (c in o.node.pendingReads && o.node.pendingReads[c].index == n.pendingReads[c].index)
      || ReadReady(c, n.pendingReads[c].index) in o.actions
      || ReadRejected(c, LeadershipLost) in o.actions
  }

  /** An answer is to a waiting read. */
  predicate Due(n: Node, a: Action) {
    && (a.ReadReady? ==> a.context in n.pendingReads && a.index == n.pendingReads[a.context].index)
    && (a.ReadRejected? ==> a.context in n.pendingReads && a.error == LeadershipLost)
  }

  predicate AllDue(n: Node, actions: seq<Action>) {
    forall a {:trigger a in actions} :: a in actions ==> Due(n, a)
  }

  /** No read is new. */
  predicate NoMore(n: Node, m: Node) {
    forall c {:trigger c in m.pendingReads} :: c in m.pendingReads ==>
      c in n.pendingReads && m.pendingReads[c].index == n.pendingReads[c].index
  }

  ghost predicate Reads(n: Node, o: Out) {
    Tidy(n) ==>
      && Tidy(o.node) && NoMore(n, o.node) && AllDue(n, o.actions)
      && forall c {:trigger Served(n, o, c)} :: Served(n, o, c)
  }

  lemma ReadsThen(n: Node, a: Out, b: Out)
    requires Reads(n, a) && Reads(a.node, b)
    ensures Reads(n, Then(a, b))
  {
    if Tidy(n) {
      forall c ensures Served(n, Then(a, b), c) {
        assert Served(n, a, c) && Served(a.node, b, c);
      }
      forall x | x in b.actions ensures Due(n, x) {
        assert Due(a.node, x);
      }
    }
  }

  predicate Unread(actions: seq<Action>) {
    forall a {:trigger a in actions} :: a in actions ==> !a.ReadReady? && !a.ReadRejected?
  }

  /** Nothing to do with reads. */
  predicate Elsewhere(n: Node, o: Out) {
    Unread(o.actions) && o.node.pendingReads == n.pendingReads && (o.node.role == Leader <==> n.role == Leader)
  }

  lemma ElsewhereReads(n: Node, o: Out)
    requires Elsewhere(n, o)
    ensures Reads(n, o)
  {
  }

  /** A node without waiting reads takes office. */
  lemma FreshReads(n: Node, o: Out)
    requires Unread(o.actions) && o.node.pendingReads == map[] && n.role != Leader
    ensures Reads(n, o)
  {
  }

  // ------------------------------------------------------------------------- pieces

  lemma {:induction false} ApplyElsewhere(n: Node)
    ensures Elsewhere(n, ApplyCommitted(n)) && ApplyCommitted(n).node.role == n.role
    decreases n.hardState.commitIndex - n.appliedIndex
  {
    hide LogView.Entry;
    if n.appliedIndex < n.hardState.commitIndex && n.log.Entry(n.appliedIndex + 1).Some? {
      ApplyElsewhere(n.(appliedIndex := n.appliedIndex + 1));
    }
  }

  lemma SetCommitElsewhere(n: Node, commit: nat)
    ensures Elsewhere(n, SetCommit(n, commit)) && SetCommit(n, commit).node.role == n.role
  {
    hide LogView.LastIndex, ApplyCommitted;
    ApplyElsewhere(n.(hardState := n.hardState.(commitIndex := commit)));
  }

  lemma AdvanceElsewhere(n: Node)
    ensures Elsewhere(n, AdvanceLeaderCommit(n)) && AdvanceLeaderCommit(n).node.role == n.role
  {
    hide SetCommit, Configuration.QuorumIndex, Node.Matched, LogView.Term;
    SetCommitElsewhere(n, n.configuration.QuorumIndex(n.Matched()));
  }

  lemma AppendUnread(n: Node, peer: NodeId, context: Option<Bytes>)
    ensures Unread(SendAppend(n, peer, context))
  {
    hide LogView.Term, LogView.LastIndex, LogView.EntriesFrom;
  }

  lemma {:induction false} BroadcastUnread(n: Node, peers: seq<NodeId>, context: Option<Bytes>)
    ensures Unread(Broadcast(n, peers, context))
    decreases |peers|
  {
    hide SendAppend;
    if peers != [] {
      AppendUnread(n, peers[0], context);
      BroadcastUnread(n, peers[1..], context);
    }
  }

  lemma RejectsAll(contexts: seq<Bytes>, c: Bytes)
    ensures ReadRejected(c, LeadershipLost) in RejectReads(contexts) <==> c in contexts
    ensures forall a :: a in RejectReads(contexts) ==>
              a.ReadRejected? && a.error == LeadershipLost && a.context in contexts
  {
    if c in contexts {
      var i :| 0 <= i < |contexts| && contexts[i] == c;
      assert RejectReads(contexts)[i] == ReadRejected(c, LeadershipLost);
    }
  }

  /** Giving up leadership answers everyone. */
  lemma FollowReads(n: Node, term: nat, leader: Option<NodeId>)
    ensures Reads(n, BecomeFollower(n, term, leader))
    ensures BecomeFollower(n, term, leader).node.role == Follower
            && BecomeFollower(n, term, leader).node.pendingReads == map[]
  {
    hide RejectReads, Sorted;
    var o, contexts := BecomeFollower(n, term, leader), Sorted(n.pendingReads.Keys);
    forall c ensures Served(n, o, c) {
      RejectsAll(contexts, c);
    }
    RejectsAll(contexts, []);
    assert AllDue(n, RejectReads(contexts));
  }

  lemma ResetReads(n: Node, term: nat)
    ensures Reads(n, FollowAndReset(n, term))
  {
    hide BecomeFollower, Reads;
    var f := BecomeFollower(n, term, None);
    FollowReads(n, term, None);
    ElsewhereReads(f.node, Out(f.node, [ResetElectionTimer]));
    ReadsThen(n, f, Out(f.node, [ResetElectionTimer]));
  }

  lemma LeaderReads(n: Node)
    requires n.role != Leader
    ensures Reads(n, BecomeLeader(n))
  {
    hide AdvanceLeaderCommit, Broadcast, InitialProgress, LogView.LastIndex, LogView.Append;
    var entry := LogEntry(n.log.LastIndex() + 1, n.Term(), Noop);
    var m := n.(role := Leader, leaderId := Some(n.id), votes := {}, pendingReads := map[],
                log := n.log.Append([entry]), progress := InitialProgress(n, entry.index),
                recentActive := n.configuration.participants);
    var advanced := AdvanceLeaderCommit(m);
    AdvanceElsewhere(m);
    BroadcastUnread(advanced.node, advanced.node.Peers(), None);
    FreshReads(n, BecomeLeader(n));
  }

  lemma ElectionReads(n: Node, term: nat)
    requires n.role != Leader
    ensures Reads(n, StartElection(n, term))
  {
    hide BecomeLeader, LogView.LastIndex, LogView.LastTerm, Configuration.Quorum, Reads;
    var hs := n.hardState.(currentTerm := term, votedFor := Some(n.id));
    var m := n.(hardState := hs, role := Candidate, campaignTerm := None, votes := {n.id});
    var begun := Out(m, [Persist(SetHardState(hs)), RoleChanged(Candidate, term), ResetElectionTimer]);
    ElsewhereReads(n, begun);
    if m.configuration.Quorum(m.votes) {
      LeaderReads(m);
      ReadsThen(n, begun, BecomeLeader(m));
    } else {
      ElsewhereReads(n, StartElection(n, term));
    }
  }

  lemma PreVoteReads(n: Node)
    requires n.role != Leader
    ensures Reads(n, StartPreVote(n))
  {
    hide StartElection, LogView.LastIndex, LogView.LastTerm, Configuration.Quorum, Reads;
    var m := n.(role := PreCandidate, leaderId := None, campaignTerm := Some(n.Term() + 1), votes := {n.id});
    var begun := Out(m, [RoleChanged(PreCandidate, n.Term()), ResetElectionTimer]);
    ElsewhereReads(n, begun);
    if m.configuration.Quorum(m.votes) {
      ElectionReads(m, n.Term() + 1);
      ReadsThen(n, begun, StartElection(m, n.Term() + 1));
    } else {
      ElsewhereReads(n, StartPreVote(n));
    }
  }

  // ----------------------------------------------------------------------- handlers

  lemma TickReads(n: Node, tick: Tick)
    ensures Reads(n, OnTick(n, tick))
  {
    hide StartPreVote, FollowAndReset, Broadcast, Configuration.Quorum, Reads;
    if tick == Election && n.role != Leader {
      PreVoteReads(n);
    } else if tick == CheckQuorum && n.role == Leader && !n.configuration.Quorum(n.recentActive) {
      ResetReads(n, n.Term());
    } else {
      var m := n.(recentActive := {n.id});
      BroadcastUnread(n, n.Peers(), None);
      BroadcastUnread(m, m.Peers(), None);
      ElsewhereReads(n, OnTick(n, tick));
    }
  }

  /** A node that has become a follower has nothing waiting, and stays without. */
  lemma AfterFollowing(n: Node, term: nat, from: NodeId, rest: Out)
    requires var f := BecomeFollower(n, term, Some(from)); Elsewhere(f.node, rest)
    ensures var f := BecomeFollower(n, term, Some(from));
            Reads(n, Then(Then(f, Out(f.node, [ResetElectionTimer])), rest))
  {
    hide BecomeFollower, Reads;
    var f := BecomeFollower(n, term, Some(from));
    FollowReads(n, term, Some(from));
    ElsewhereReads(f.node, Out(f.node, [ResetElectionTimer]));
    ReadsThen(n, f, Out(f.node, [ResetElectionTimer]));
    ElsewhereReads(f.node, rest);
    ReadsThen(n, Then(f, Out(f.node, [ResetElectionTimer])), rest);
  }

  lemma FinishElsewhere(n: Node, from: NodeId, m: Message)
    requires m.AppendEntries?
    ensures Elsewhere(n, FinishAppend(n, from, m))
  {
    hide SetCommit, LogView.LastIndex;
    var last := n.log.LastIndex();
    SetCommitElsewhere(n, if m.leaderCommit <= last then m.leaderCommit else last);
  }

  lemma PreviousElsewhere(n: Node, from: NodeId, m: Message)
    requires m.AppendEntries?
    ensures Elsewhere(n, CheckPrevious(n, from, m))
  {
    hide FinishAppend, ScanFrom, ValidEntrySequence, LogView.Term, LogView.LastIndex, LogView.FirstIndexOfTerm,
         LogView.TruncateAndAppend;
    FinishElsewhere(n, from, m);
    var scan := ScanFrom(n.log, n.hardState.commitIndex, m.entries, 0);
    if scan.ChangedAt? {
      var p := scan.position;
      FinishElsewhere(WriteSuffix(n, scan.index, m.entries[if p <= |m.entries| then p else |m.entries|..]).node, from,
                      m);
    }
  }

  lemma ChunkElsewhere(n: Node, from: NodeId, m: Message)
    requires m.InstallSnapshot?
    ensures Elsewhere(n, ReceiveChunk(n, from, m))
  {
    hide Sha256, LogView.Term, LogView.Compact;
  }

  lemma ReplicaReads(n: Node, from: NodeId, m: Message)
    requires m.AppendEntries? || m.InstallSnapshot?
    requires n.configuration.Contains(from) && from != n.id
    ensures Reads(n, OnMessage(n, from, m))
  {
    hide BecomeFollower, CheckPrevious, ReceiveChunk, LogView.LastIndex, Reads;
    if m.leaderId != from || m.term < n.Term() {
      ElsewhereReads(n, OnMessage(n, from, m));
    } else {
      var f := BecomeFollower(n, m.term, Some(from)).node;
      if m.AppendEntries? {
        PreviousElsewhere(f, from, m);
        AfterFollowing(n, m.term, from, CheckPrevious(f, from, m));
      } else {
        ChunkElsewhere(f, from, m);
        AfterFollowing(n, m.term, from, ReceiveChunk(f, from, m));
      }
    }
  }

  lemma VoterReads(n: Node, from: NodeId, m: Message)
    requires m.PreVoteRequest? || m.RequestVote?
    requires n.configuration.Contains(from) && from != n.id
    ensures Reads(n, OnMessage(n, from, m))
  {
    hide BecomeFollower, LogView.LastIndex, LogView.LastTerm, Reads;
    if m.PreVoteRequest? || m.candidateId != from {
      ElsewhereReads(n, OnMessage(n, from, m));
    } else {
      var f := if m.term > n.Term() then BecomeFollower(n, m.term, None) else Out(n, []);
      FollowReads(n, m.term, None);
      ElsewhereReads(n, Out(n, []));
      var answer := AnswerVote(f.node, m.term, from, m.lastLogIndex, m.lastLogTerm);
      ElsewhereReads(f.node, answer);
      ReadsThen(n, f, answer);
    }
  }

  lemma CandidateReads(n: Node, from: NodeId, m: Message)
    requires m.PreVoteResponse? || m.RequestVoteResponse?
    requires n.configuration.Contains(from) && from != n.id
    ensures Reads(n, OnMessage(n, from, m))
  {
    hide FollowAndReset, BecomeLeader, StartElection, Configuration.Quorum, Reads;
    var counted := n.(votes := n.votes + {from});
    var o := OnMessage(n, from, m);
    var term := if m.PreVoteResponse? then m.responderTerm else m.term;
    if term > n.Term() {
      ResetReads(n, term);
    } else if m.PreVoteResponse? && n.role == PreCandidate && o == StartElection(counted, m.prospectiveTerm) {
      ElectionReads(counted, m.prospectiveTerm);
      SameReads(n, counted, o);
    } else if m.RequestVoteResponse? && n.role == Candidate && o == BecomeLeader(counted) {
      LeaderReads(counted);
      SameReads(n, counted, o);
    } else {
      ElsewhereReads(n, o);
    }
  }

  lemma SameReads(n: Node, m: Node, o: Out)
    requires Reads(m, o) && m.pendingReads == n.pendingReads && m.role == n.role
    ensures Reads(n, o)
  {
    if Tidy(n) {
      forall c ensures Served(n, o, c) {
        assert Served(m, o, c);
      }
      forall a | a in o.actions ensures Due(n, a) {
        assert Due(m, a);
      }
    }
  }

  lemma AckReads(n: Node, from: NodeId, context: Bytes)
    ensures Reads(n, AcknowledgeRead(n, from, context)) && AcknowledgeRead(n, from, context).node.role == n.role
  {
    hide Configuration.Quorum;
    var o := AcknowledgeRead(n, from, context);
    if context in n.pendingReads {
      var pending := n.pendingReads[context];
      if o.actions != [] {
        assert o.actions == [ReadReady(context, pending.index)];
        assert ReadReady(context, pending.index) in o.actions;
      }
      forall c ensures Served(n, o, c) {
        if c in n.pendingReads && c != context {
          assert c in o.node.pendingReads;
        }
      }
    } else {
      ElsewhereReads(n, o);
    }
  }

  lemma ReportElsewhere(n: Node, from: NodeId, m: Message)
    requires m.AppendEntriesResponse?
    ensures Elsewhere(n, MatchReported(n, from, m)) && Elsewhere(n, ConflictReported(n, from, m))
  {
    hide AdvanceLeaderCommit, SendAppend, ResumeIndex, LogView.LastIndex;
    var p := if from in n.progress then n.(progress := n.progress[from := Raised(n.progress[from], m.matchIndex)])
        else n;
    AdvanceElsewhere(p);
    AppendUnread(AdvanceLeaderCommit(p).node, from, None);
    var next := ResumeIndex(n, m);
    var q := if from in n.progress then n.(progress := n.progress[from := Lowered(n.progress[from], next)]) else n;
    AppendUnread(q, from, None);
  }

  lemma AppendResponseReads(n: Node, from: NodeId, m: Message)
    requires m.AppendEntriesResponse?
    ensures Reads(n, OnAppendResponse(n, from, m))
  {
    hide FollowAndReset, AcknowledgeRead, MatchReported, ConflictReported, Reads;
    if m.term > n.Term() {
      ResetReads(n, m.term);
    } else if n.role != Leader || m.term != n.Term() {
      ElsewhereReads(n, Out(n, []));
    } else {
      var active := n.(recentActive := n.recentActive + {from});
      var read := if m.readContext.Some? then AcknowledgeRead(active, from, m.readContext.value) else Out(active, []);
      if m.readContext.Some? {
        AckReads(active, from, m.readContext.value);
        SameReads(n, active, read);
      } else {
        ElsewhereReads(n, read);
      }
      ReportElsewhere(read.node, from, m);
      var report := if m.success then MatchReported(read.node, from, m) else ConflictReported(read.node, from, m);
      ElsewhereReads(read.node, report);
      ReadsThen(n, read, report);
    }
  }

  lemma SnapshotResponseReads(n: Node, from: NodeId, m: Message)
    requires m.InstallSnapshotResponse?
    ensures Reads(n, OnSnapshotResponse(n, from, m))
  {
    hide FollowAndReset, AdvanceLeaderCommit, SendAppend, Reads;
    if m.term > n.Term() {
      ResetReads(n, m.term);
    } else {
      var active := n.(recentActive := n.recentActive + {from});
      if from in active.progress {
        var p := active.(progress := active.progress[from := Raised(active.progress[from], m.matchIndex)]);
        AdvanceElsewhere(p);
        AppendUnread(AdvanceLeaderCommit(p).node, from, None);
        var q := active.(progress := active.progress[from :=
                   active.progress[from].(snapshotOffset := Some(if m.accepted then m.nextOffset else 0))]);
        AppendUnread(q, from, None);
      }
      ElsewhereReads(n, OnSnapshotResponse(n, from, m));
    }
  }

  lemma ProposeReads(n: Node, id: nat, command: Bytes)
    ensures Reads(n, OnPropose(n, id, command))
  {
    hide AdvanceLeaderCommit, Broadcast, LogView.LastIndex, LogView.Append, Reads;
    var entry := LogEntry(n.log.LastIndex() + 1, n.Term(), Command(id, command));
    var m := n.(log := n.log.Append([entry]),
                progress := if n.id in n.progress
                            then n.progress[n.id := n.progress[n.id].(matchIndex := entry.index,
                                                                      nextIndex := entry.index + 1)]
                            else n.progress);
    AdvanceElsewhere(m);
    var o := AdvanceLeaderCommit(m).node;
    BroadcastUnread(o, o.Peers(), None);
    ElsewhereReads(n, OnPropose(n, id, command));
  }

  lemma BuiltReads(n: Node, s: PersistentSnapshot)
    ensures Reads(n, OnSnapshotBuilt(n, s))
  {
    hide LogView.Term, LogView.Compact, PersistentSnapshot.Validate, Reads;
    ElsewhereReads(n, OnSnapshotBuilt(n, s));
  }

  lemma HandleReads(n: Node, input: Input)
    requires !input.ReadIndex?
    ensures Reads(n, Handle(n, input))
  {
    hide OnTick, OnMessage, OnPropose, OnSnapshotBuilt, OnAppendResponse, OnSnapshotResponse, Reads;
    match input {
      case TickInput(tick) => TickReads(n, tick);
      case Receive(from, m) =>
        if !n.configuration.Contains(from) || from == n.id {
          StrangerIgnored(n, from, m);
          ElsewhereReads(n, Out(n, []));
        } else if m.AppendEntries? || m.InstallSnapshot? {
          ReplicaReads(n, from, m);
        } else if m.PreVoteRequest? || m.RequestVote? {
          VoterReads(n, from, m);
        } else if m.PreVoteResponse? || m.RequestVoteResponse? {
          CandidateReads(n, from, m);
        } else {
          LeaderHears(n, from, m);
        }
      case Propose(id, command) => ProposeReads(n, id, command);
      case SnapshotBuilt(s) => BuiltReads(n, s);
    }
  }

  lemma StrangerIgnored(n: Node, from: NodeId, m: Message)
    requires !n.configuration.Contains(from) || from == n.id
    ensures OnMessage(n, from, m) == Out(n, [])
  {
  }

  lemma LeaderHears(n: Node, from: NodeId, m: Message)
    requires m.AppendEntriesResponse? || m.InstallSnapshotResponse?
    requires n.configuration.Contains(from) && from != n.id
    ensures Reads(n, OnMessage(n, from, m))
  {
    hide OnAppendResponse, OnSnapshotResponse, Reads;
    if m.AppendEntriesResponse? {
      AppendResponseReads(n, from, m);
    } else {
      SnapshotResponseReads(n, from, m);
    }
  }

  // ---------------------------------------------------------------------- asking

  /** What a node says to a new read. */
  datatype Reception = Waits | Ready(index: nat) | Refused(error: ReadError)

  /** Leaders that have committed in their term take reads on, under a context that is not
      empty and not waiting; a lone voter answers at once. */
  function Receives(n: Node, context: Bytes): Reception {
    if n.role != Leader then Refused(NotLeader)
    else if context == [] || context in n.pendingReads then Refused(InvalidContext)
    else if n.log.Term(n.hardState.commitIndex) != Some(n.Term()) then Refused(LeaderNotReady)
    else if n.configuration.Quorum({n.id}) then Ready(n.hardState.commitIndex)
    else Waits
  }

  function Reply(r: Reception, context: Bytes): Option<Action> {
    match r
    case Waits => None
    case Ready(i) => Some(ReadReady(context, i))
    case Refused(e) => Some(ReadRejected(context, e))
  }

  /** The answer to one read, the others left alone. */
  predicate Meets(n: Node, o: Out, context: Bytes) {
    var r := Receives(n, context);
    && o.node.pendingReads == (if r.Waits? then n.pendingReads[context := PendingRead(n.hardState.commitIndex, {n.id})]
                               else n.pendingReads)
    && (!r.Waits? ==> Reply(r, context).value in o.actions)
    && forall a {:trigger a in o.actions} :: a in o.actions && (a.ReadReady? || a.ReadRejected?) ==>
         Reply(r, context) == Some(a)
  }

  lemma AskingMeets(n: Node, context: Bytes)
    ensures Meets(n, OnReadIndex(n, context), context) && OnReadIndex(n, context).node.role == n.role
  {
    hide Broadcast, LogView.Term, Configuration.Quorum;
    var m := n.(pendingReads := n.pendingReads[context := PendingRead(n.hardState.commitIndex, {n.id})]);
    BroadcastUnread(m, m.Peers(), Some(context));
    if Receives(n, context).Ready? {
      assert m.pendingReads - {context} == n.pendingReads;
      assert OnReadIndex(n, context).actions == [ReadReady(context, n.hardState.commitIndex)];
      assert ReadReady(context, n.hardState.commitIndex) in OnReadIndex(n, context).actions;
    } else if Receives(n, context).Refused? {
      assert ReadRejected(context, Receives(n, context).error) in OnReadIndex(n, context).actions;
    }
  }

  // -------------------------------------------------------------------------- steps

  lemma StepReads(n: Node, input: Input)
    requires !input.ReadIndex?
    ensures Reads(n, Step(n, input))
  {
    hide ApplyCommitted, Handle, Step, Reads;
    ApplyElsewhere(n);
    ElsewhereReads(n, ApplyCommitted(n));
    HandleReads(ApplyCommitted(n).node, input);
    StepSplit(n, input);
    ReadsThen(n, ApplyCommitted(n), Handle(ApplyCommitted(n).node, input));
  }

  lemma StepAsks(n: Node, context: Bytes)
    ensures Meets(n, Step(n, ReadIndex(context)), context) && Step(n, ReadIndex(context)).node.role == n.role
  {
    hide ApplyCommitted, OnReadIndex, Step, LogView.Term, Configuration.Quorum;
    var replay := ApplyCommitted(n);
    ApplyKeepsRole(n);
    ApplyElsewhere(n);
    AskingMeets(replay.node, context);
    StepSplit(n, ReadIndex(context));
  }

  // --------------------------------------------------------------------------- runs

  ghost predicate AllTidy(sys: System) {
    forall n {:trigger sys.nodes[n]} :: n in sys.nodes ==> Tidy(sys.nodes[n])
  }

  lemma NextTidy(sys: System, e: Event)
    requires Allowed(sys, e) && AllTidy(sys)
    ensures AllTidy(Next(sys, e))
  {
    hide Step, Executed, Reboot, Accepts;
    var next, node := Next(sys, e), sys.nodes[e.node];
    assert next.nodes == sys.nodes[e.node := next.nodes[e.node]];
    assert Tidy(node);
    if e.crash.None? {
      if e.input.ReadIndex? {
        StepAsks(node, e.input.context);
      } else {
        StepReads(node, e.input);
      }
    } else if Reboot(sys, e.node, Executed(sys, e)).Ok? {
      RebootTidy(sys, e.node, Executed(sys, e));
    }
    forall n | n in next.nodes ensures Tidy(next.nodes[n]) {
      assert n == e.node || next.nodes[n] == sys.nodes[n];
    }
  }

  lemma RebootTidy(sys: System, n: NodeId, actions: seq<Action>)
    requires n in sys.nodes && Reboot(sys, n, actions).Ok?
    ensures Tidy(Reboot(sys, n, actions).value)
  {
    hide EntriesRecoverable, PersistentSnapshot.Validate, LogView.New, LogView.LastIndex, StableStore.ExecuteAll;
  }

  lemma {:induction false} AtTidy(cfg: Configuration, events: seq<Event>, j: nat)
    requires ClusterRun(cfg, events) && j <= |events|
    ensures AllTidy(At(cfg, events, j))
    decreases j
  {
    hide ClusterRun, Allowed, Next, AllTidy;
    if j == 0 {
      assert events[..0] == [];
      TidyAtFirst(cfg);
    } else {
      AtTidy(cfg, events, j - 1);
      AtNext(cfg, events, j - 1);
      NextTidy(At(cfg, events, j - 1), events[j - 1]);
    }
  }

  lemma TidyAtFirst(cfg: Configuration)
    ensures AllTidy(Initial(cfg))
  {
  }

  /** No read is dropped: whatever happens to a node short of a crash, a waiting read still
      waits at its index, completes at that index, or is told that leadership was lost. */
  lemma ReadsAreAnswered(cfg: Configuration, events: seq<Event>, j: nat, n: NodeId, c: Bytes)
    requires ClusterRun(cfg, events) && j < |events| && events[j].node == n && events[j].crash.None?
    requires n in At(cfg, events, j).nodes && c in At(cfg, events, j).nodes[n].pendingReads
    ensures n in At(cfg, events, j + 1).nodes
    ensures var was, now := At(cfg, events, j).nodes[n].pendingReads, At(cfg, events, j + 1).nodes[n].pendingReads;
            || (c in now && now[c].index == was[c].index)
            || ExecutedAt(cfg, events, j, n, ReadReady(c, was[c].index))
            || ExecutedAt(cfg, events, j, n, ReadRejected(c, LeadershipLost))
  {
    hide ClusterRun, At, Step, Next, Executed, Allowed;
    var sys := At(cfg, events, j);
    AtNext(cfg, events, j);
    Uncrashed(sys, events[j]);
    AtTidy(cfg, events, j);
    assert Tidy(sys.nodes[n]);
    if events[j].input.ReadIndex? {
      StepAsks(sys.nodes[n], events[j].input.context);
    } else {
      StepReads(sys.nodes[n], events[j].input);
      assert Served(sys.nodes[n], Step(sys.nodes[n], events[j].input), c);
    }
  }

  /** Every answer was waited for: a read completes at the index it was waiting at, or loses
      its leader while it waits; the only other answers are to the read being asked. */
  lemma AnswersWereDue(cfg: Configuration, events: seq<Event>, j: nat, n: NodeId, a: Action)
    requires ClusterRun(cfg, events) && ExecutedAt(cfg, events, j, n, a) && (a.ReadReady? || a.ReadRejected?)
    ensures n in At(cfg, events, j).nodes
    ensures var node := At(cfg, events, j).nodes[n];
            if events[j].input.ReadIndex? then
              a.context == events[j].input.context && Reply(Receives(node, a.context), a.context) == Some(a)
            else Due(node, a)
  {
    hide ClusterRun, At, Step, Receives, Usable;
    var sys := At(cfg, events, j);
    AtTidy(cfg, events, j);
    assert Tidy(sys.nodes[n]);
    assert a in Step(sys.nodes[n], events[j].input).actions;
    if events[j].input.ReadIndex? {
      StepAsks(sys.nodes[n], events[j].input.context);
    } else {
      StepReads(sys.nodes[n], events[j].input);
    }
  }

  /** And every read gets its reception: it is taken on at the commit index, completed, or
      refused for the first reason there is. */
  lemma ReadIsReceived(cfg: Configuration, events: seq<Event>, j: nat, n: NodeId, context: Bytes)
    requires ClusterRun(cfg, events) && j < |events| && events[j] == Event(n, ReadIndex(context), None)
    ensures n in At(cfg, events, j).nodes && n in At(cfg, events, j + 1).nodes
    ensures var was, now := At(cfg, events, j).nodes[n], At(cfg, events, j + 1).nodes[n];
            if Receives(was, context).Waits?
            then context in now.pendingReads && now.pendingReads[context].index == was.hardState.commitIndex
            else ExecutedAt(cfg, events, j, n, Reply(Receives(was, context), context).value)
  {
    hide ClusterRun, At, Step, Next, Executed, Allowed, LogView.Term, Configuration.Quorum;
    var sys := At(cfg, events, j);
    AtNext(cfg, events, j);
    Uncrashed(sys, events[j]);
    StepAsks(sys.nodes[n], context);
  }
}
