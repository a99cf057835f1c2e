/** Timers and heartbeats: when a node restarts a timer, and whom a leader's heartbeat reaches. */
module RaftTimers {
  import opened Wrappers
  import opened Ordering
  import opened RaftTypes
  import opened RaftLog
  import opened RaftNode
  import opened RaftSafety
  import opened RaftCluster
  import opened RaftElections
  import opened RaftLeading
  import opened RaftTheorems
  import opened RaftPreVotes
  import RaftRuns

  // ---------------------------------------------------------------- what is not timed

  predicate Announces(a: Action) {
    a.RoleChanged? && a.role == Leader
  }

  predicate Timer(a: Action) {
    a.ResetElectionTimer? || a.ResetHeartbeatTimer? || Announces(a)
  }

  predicate Untimed(actions: seq<Action>) {
    forall a {:trigger a in actions} :: a in actions ==> !Timer(a)
  }

  /** What the actions do to the two timers, and whether they announce a leader. */
  predicate Times(actions: seq<Action>, election: bool, heartbeat: bool, leads: bool) {
    && (ResetElectionTimer in actions <==> election) && (ResetHeartbeatTimer in actions <==> heartbeat)
    && ((exists a :: a in actions && Announces(a)) <==> leads)
  }

  lemma UntimedTimes(actions: seq<Action>)
    requires Untimed(actions)
    ensures Times(actions, false, false, false)
  {
  }

  lemma TimesThen(a: seq<Action>, b: seq<Action>, e: bool, h: bool, l: bool, f: bool, i: bool, m: bool)
    requires Times(a, e, h, l) && Times(b, f, i, m)
    ensures Times(a + b, e || f, h || i, l || m)
  {
    if x :| x in a && Announces(x) {
      assert x in a + b;
    }
    if x :| x in b && Announces(x) {
      assert x in a + b;
    }
  }

  lemma {:induction false} ApplyUntimed(n: Node)
    ensures Untimed(ApplyCommitted(n).actions)
    decreases n.hardState.commitIndex - n.appliedIndex
  {
    hide LogView.Entry;
    if n.appliedIndex < n.hardState.commitIndex && n.log.Entry(n.appliedIndex + 1).Some? {
      ApplyUntimed(n.(appliedIndex := n.appliedIndex + 1));
    }
  }

  lemma SetCommitUntimed(n: Node, commit: nat)
    ensures Untimed(SetCommit(n, commit).actions)
  {
    hide LogView.LastIndex, ApplyCommitted;
    ApplyUntimed(n.(hardState := n.hardState.(commitIndex := commit)));
  }

  lemma AdvanceUntimed(n: Node)
    ensures Untimed(AdvanceLeaderCommit(n).actions)
  {
    hide SetCommit, Configuration.QuorumIndex, Node.Matched, LogView.Term;
    SetCommitUntimed(n, n.configuration.QuorumIndex(n.Matched()));
  }

  lemma AppendUntimed(n: Node, peer: NodeId, context: Option<Bytes>)
    ensures Untimed(SendAppend(n, peer, context))
  {
    hide LogView.Term, LogView.LastIndex, LogView.EntriesFrom;
  }

  lemma {:induction false} BroadcastUntimed(n: Node, peers: seq<NodeId>, context: Option<Bytes>)
    ensures Untimed(Broadcast(n, peers, context))
    decreases |peers|
  {
    hide SendAppend;
    if peers != [] {
      AppendUntimed(n, peers[0], context);
      BroadcastUntimed(n, peers[1..], context);
    }
  }

  lemma FollowUntimed(n: Node, term: nat, leader: Option<NodeId>)
    ensures Untimed(BecomeFollower(n, term, leader).actions)
  {
    hide Sorted;
  }

  // ---------------------------------------------------------------------- handlers

  lemma ResetTimes(n: Node, term: nat)
    ensures Times(FollowAndReset(n, term).actions, true, false, false)
  {
    hide BecomeFollower;
    FollowUntimed(n, term, None);
    var f := BecomeFollower(n, term, None).actions;
    UntimedTimes(f);
    TimesThen(f, [ResetElectionTimer], false, false, false, true, false, false);
  }

  lemma LeaderTimes(n: Node)
    ensures Times(BecomeLeader(n).actions, false, true, true)
  {
    hide AdvanceLeaderCommit, Broadcast, InitialProgress, LogView.LastIndex, LogView.Append, Times;
    var entry := LogEntry(n.log.LastIndex() + 1, n.Term(), Noop);
    var m := n.(role := Leader, leaderId := Some(n.id), votes := {}, pendingReads := map[],
                log := n.log.Append([entry]), progress := InitialProgress(n, entry.index),
                recentActive := n.configuration.participants);
    var begun := [Persist(Append([entry])), RoleChanged(Leader, n.Term()), ResetHeartbeatTimer];
    var advanced := AdvanceLeaderCommit(m);
    var sends := Broadcast(advanced.node, advanced.node.Peers(), None);
    AdvanceUntimed(m);
    BroadcastUntimed(advanced.node, advanced.node.Peers(), None);
    UntimedTimes(advanced.actions);
    UntimedTimes(sends);
    TakesOffice(entry, n.Term());
    TimesThen(begun, advanced.actions, false, true, true, false, false, false);
    TimesThen(begun + advanced.actions, sends, false, true, true, false, false, false);
  }

  lemma TakesOffice(entry: LogEntry, term: nat)
    ensures Times([Persist(Append([entry])), RoleChanged(Leader, term), ResetHeartbeatTimer], false, true, true)
  {
    var a := RoleChanged(Leader, term);
    assert a in [Persist(Append([entry])), a, ResetHeartbeatTimer] && Announces(a);
  }

  lemma ElectionTimes(n: Node, term: nat)
    ensures var alone := n.configuration.Quorum({n.id});
            Times(StartElection(n, term).actions, true, alone, alone)
  {
    hide BecomeLeader, LogView.LastIndex, LogView.LastTerm, Configuration.Quorum, Times, ToAll;
    var hs := n.hardState.(currentTerm := term, votedFor := Some(n.id));
    var m := n.(hardState := hs, role := Candidate, campaignTerm := None, votes := {n.id});
    var begun := [Persist(SetHardState(hs)), RoleChanged(Candidate, term), ResetElectionTimer];
    Campaigns(hs, term);
    if m.configuration.Quorum(m.votes) {
      LeaderTimes(m);
      TimesThen(begun, BecomeLeader(m).actions, true, false, false, false, true, true);
    } else {
      var sends := ToAll(m.Peers(), RequestVote(term, m.id, m.log.LastIndex(), m.log.LastTerm()));
      ToAllUntimed(m.Peers(), RequestVote(term, m.id, m.log.LastIndex(), m.log.LastTerm()));
      TimesThen(begun, sends, true, false, false, false, false, false);
    }
  }

  lemma Campaigns(hs: HardState, term: nat)
    ensures Times([Persist(SetHardState(hs)), RoleChanged(Candidate, term), ResetElectionTimer], true, false, false)
  {
  }

  lemma ToAllUntimed(peers: seq<NodeId>, m: Message)
    ensures Times(ToAll(peers, m), false, false, false)
  {
  }

  lemma PreVoteTimes(n: Node)
    ensures var alone := n.configuration.Quorum({n.id}); Times(StartPreVote(n).actions, true, alone, alone)
  {
    hide StartElection, LogView.LastIndex, LogView.LastTerm, Configuration.Quorum, Times, ToAll;
    var m := n.(role := PreCandidate, leaderId := None, campaignTerm := Some(n.Term() + 1), votes := {n.id});
    var begun := [RoleChanged(PreCandidate, n.Term()), ResetElectionTimer];
    assert Times(begun, true, false, false) by { SetsOut(n.Term()); }
    if m.configuration.Quorum(m.votes) {
      ElectionTimes(m, n.Term() + 1);
      TimesThen(begun, StartElection(m, n.Term() + 1).actions, true, false, false, true, true, true);
    } else {
      var ask := PreVoteRequest(n.Term() + 1, m.id, m.log.LastIndex(), m.log.LastTerm());
      ToAllUntimed(m.Peers(), ask);
      TimesThen(begun, ToAll(m.Peers(), ask), true, false, false, false, false, false);
    }
  }

  lemma SetsOut(term: nat)
    ensures Times([RoleChanged(PreCandidate, term), ResetElectionTimer], true, false, false)
  {
  }

  lemma FinishUntimed(n: Node, from: NodeId, m: Message)
    requires m.AppendEntries?
    ensures Untimed(FinishAppend(n, from, m).actions)
  {
    hide SetCommit, LogView.LastIndex;
    var last := n.log.LastIndex();
    SetCommitUntimed(n, if m.leaderCommit <= last then m.leaderCommit else last);
  }

  lemma PreviousUntimed(n: Node, from: NodeId, m: Message)
    requires m.AppendEntries?
    ensures Untimed(CheckPrevious(n, from, m).actions)
  {
    hide FinishAppend, ScanFrom, ValidEntrySequence, LogView.Term, LogView.LastIndex, LogView.FirstIndexOfTerm,
         LogView.TruncateAndAppend;
    FinishUntimed(n, from, m);
    var scan := ScanFrom(n.log, n.hardState.commitIndex, m.entries, 0);
    if scan.ChangedAt? {
      var p := scan.position;
      FinishUntimed(WriteSuffix(n, scan.index, m.entries[if p <= |m.entries| then p else |m.entries|..]).node, from, m);
    }
  }

  lemma ChunkUntimed(n: Node, from: NodeId, m: Message)
    requires m.InstallSnapshot?
    ensures Untimed(ReceiveChunk(n, from, m).actions)
  {
    hide Sha256, LogView.Term, LogView.Compact;
  }

  /** Hearing from a leader: the old role ends, the timer starts anew, the rest follows. */
  lemma HeardTimes(n: Node, term: nat, from: NodeId, rest: seq<Action>)
    requires Untimed(rest)
    ensures Times(BecomeFollower(n, term, Some(from)).actions + [ResetElectionTimer] + rest, true, false, false)
  {
    hide BecomeFollower, Times;
    var f := BecomeFollower(n, term, Some(from)).actions;
    FollowUntimed(n, term, Some(from));
    UntimedTimes(f);
    UntimedTimes(rest);
    assert Times([ResetElectionTimer], true, false, false) by { JustReset(); }
    TimesThen(f, [ResetElectionTimer], false, false, false, true, false, false);
    TimesThen(f + [ResetElectionTimer], rest, true, false, false, false, false, false);
  }

  lemma JustReset()
    ensures Times([ResetElectionTimer], true, false, false)
  {
  }

  lemma ReportUntimed(n: Node, from: NodeId, m: Message)
    requires m.AppendEntriesResponse?
    ensures Untimed(MatchReported(n, from, m).actions) && Untimed(ConflictReported(n, from, m).actions)
  {
    hide AdvanceLeaderCommit, SendAppend, ResumeIndex, LogView.LastIndex;
    var p := if from in n.progress then n.(progress := n.progress[from := Raised(n.progress[from], m.matchIndex)])
        else n;
    AdvanceUntimed(p);
    AppendUntimed(AdvanceLeaderCommit(p).node, from, None);
    var next := ResumeIndex(n, m);
    var q := if from in n.progress then n.(progress := n.progress[from := Lowered(n.progress[from], next)]) else n;
    AppendUntimed(q, from, None);
  }

  lemma AppendResponseUntimed(n: Node, from: NodeId, m: Message)
    requires m.AppendEntriesResponse? && m.term <= n.Term()
    ensures Untimed(OnAppendResponse(n, from, m).actions)
  {
    hide MatchReported, ConflictReported, Configuration.Quorum;
    var active := n.(recentActive := n.recentActive + {from});
    var read := if m.readContext.Some? then AcknowledgeRead(active, from, m.readContext.value) else Out(active, []);
    ReportUntimed(read.node, from, m);
  }

  lemma SnapshotResponseUntimed(n: Node, from: NodeId, m: Message)
    requires m.InstallSnapshotResponse? && m.term <= n.Term()
    ensures Untimed(OnSnapshotResponse(n, from, m).actions)
  {
    hide AdvanceLeaderCommit, SendAppend;
    var active := n.(recentActive := n.recentActive + {from});
    if from in active.progress {
      var p := active.(progress := active.progress[from := Raised(active.progress[from], m.matchIndex)]);
      AdvanceUntimed(p);
      AppendUntimed(AdvanceLeaderCommit(p).node, from, None);
      var q := active.(progress := active.progress[from :=
                 active.progress[from].(snapshotOffset := Some(if m.accepted then m.nextOffset else 0))]);
      AppendUntimed(q, from, None);
    }
  }

  lemma ProposeUntimed(n: Node, id: nat, command: Bytes)
    ensures Untimed(OnPropose(n, id, command).actions)
  {
    hide AdvanceLeaderCommit, Broadcast, LogView.LastIndex, LogView.Append;
    var entry := LogEntry(n.log.LastIndex() + 1, n.Term(), Command(id, command));
    var m := n.(log := n.log.Append([entry]),
                progress := if n.id in n.progress
                            then n.progress[n.id := n.progress[n.id].(matchIndex := entry.index,
                                                                      nextIndex := entry.index + 1)]
                            else n.progress);
    AdvanceUntimed(m);
    var o := AdvanceLeaderCommit(m).node;
    BroadcastUntimed(o, o.Peers(), None);
  }

  lemma ReadIndexUntimed(n: Node, context: Bytes)
    ensures Untimed(OnReadIndex(n, context).actions)
  {
    hide Broadcast, LogView.Term, Configuration.Quorum;
    var m := n.(pendingReads := n.pendingReads[context := PendingRead(n.hardState.commitIndex, {n.id})]);
    BroadcastUntimed(m, m.Peers(), Some(context));
  }

  lemma BuiltUntimed(n: Node, s: PersistentSnapshot)
    ensures Untimed(OnSnapshotBuilt(n, s).actions)
  {
    hide LogView.Term, LogView.Compact, PersistentSnapshot.Validate;
  }

  // ----------------------------------------------------------------------- the rule

  /** The node gives its vote. */
  predicate Votes(n: Node, from: NodeId, m: Message)
    requires m.RequestVote?
  {
    && m.candidateId == from && NoMoreAdvanced(n.log, m.lastLogIndex, m.lastLogTerm)
    && (m.term > n.Term() || (m.term == n.Term() && n.hardState.votedFor in {None, Some(from)}))
  }

  /** The node has its quorum of grants. */
  predicate Nominated(n: Node, from: NodeId, m: Message)
    requires m.PreVoteResponse?
  {
    Grants(n, Receive(from, m), m.prospectiveTerm) && n.configuration.Quorum(n.votes + {from})
  }

  /** What a message means for the election timer: a leader of this term or a later one is
      alive, the node's vote is given away, the node campaigns, or its term is over. */
  predicate Rearms(n: Node, from: NodeId, m: Message) {
    match m
    case PreVoteRequest(_, _, _, _) => false
    case PreVoteResponse(rt, _, _) => rt > n.Term() || Nominated(n, from, m)
    case RequestVote(_, _, _, _) => Votes(n, from, m)
    case RequestVoteResponse(t, _) => t > n.Term()
    case AppendEntries(t, l, _, _, _, _, _) => l == from && t >= n.Term()
    case AppendEntriesResponse(t, _, _, _, _, _) => t > n.Term()
    case InstallSnapshot(t, l, _, _, _, _) => l == from && t >= n.Term()
    case InstallSnapshotResponse(t, _, _, _, _) => t > n.Term()
  }

  predicate Restarts(n: Node, input: Input) {
    match input
    case TickInput(Election) => n.role != Leader
    case TickInput(CheckQuorum) => n.role == Leader && !n.configuration.Quorum(n.recentActive)
    case Receive(from, m) => n.configuration.Contains(from) && from != n.id && Rearms(n, from, m)
    case _ => false
  }

  /** Both timers over one handler. */
  ghost predicate Timed(n: Node, input: Input, actions: seq<Action>) {
    && (ResetElectionTimer in actions <==> Restarts(n, input))
    && (ResetHeartbeatTimer in actions <==>
          (input == TickInput(Heartbeat) && n.role == Leader) || exists a :: a in actions && Announces(a))
  }

  lemma TimesTimed(n: Node, input: Input, actions: seq<Action>, leads: bool)
    requires Times(actions, Restarts(n, input), leads || (input == TickInput(Heartbeat) && n.role == Leader), leads)
    ensures Timed(n, input, actions)
  {
    hide Restarts;
  }

  lemma TickTimed(n: Node, tick: Tick)
    ensures Timed(n, TickInput(tick), OnTick(n, tick).actions)
  {
    hide StartPreVote, FollowAndReset, Broadcast, Configuration.Quorum, Times, Timed;
    var input, actions := TickInput(tick), OnTick(n, tick).actions;
    UntimedTimes([]);
    match tick
    case Election =>
      PreVoteTimes(n);
      TimesTimed(n, input, actions, n.role != Leader && n.configuration.Quorum({n.id}));
    case Heartbeat =>
      if n.role == Leader {
        BroadcastUntimed(n, n.Peers(), None);
        UntimedTimes(Broadcast(n, n.Peers(), None));
        assert Times([ResetHeartbeatTimer], false, true, false) by { JustBeats(); }
        TimesThen(Broadcast(n, n.Peers(), None), [ResetHeartbeatTimer], false, false, false, false, true, false);
      }
      TimesTimed(n, input, actions, false);
    case CheckQuorum =>
      var m := n.(recentActive := {n.id});
      BroadcastUntimed(m, m.Peers(), None);
      UntimedTimes(Broadcast(m, m.Peers(), None));
      ResetTimes(n, n.Term());
      TimesTimed(n, input, actions, false);
  }

  lemma JustBeats()
    ensures Times([ResetHeartbeatTimer], false, true, false)
  {
  }

  lemma VoteRequestTimes(n: Node, from: NodeId, m: Message)
    requires m.RequestVote?
    ensures Times(OnVoteRequest(n, from, m.term, m.candidateId, m.lastLogIndex, m.lastLogTerm).actions,
                  Votes(n, from, m), false, false)
  {
    hide LogView.LastIndex, LogView.LastTerm, RejectReads, Sorted, Times;
    if m.candidateId != from {
      UntimedTimes([]);
    } else {
      var f := if m.term > n.Term() then BecomeFollower(n, m.term, None) else Out(n, []);
      FollowUntimed(n, m.term, None);
      UntimedTimes(f.actions);
      AnswerTimes(f.node, m.term, from, m.lastLogIndex, m.lastLogTerm);
      var answer := AnswerVote(f.node, m.term, from, m.lastLogIndex, m.lastLogTerm).actions;
      TimesThen(f.actions, answer, false, false, false, Votes(n, from, m), false, false);
    }
  }

  lemma AnswerTimes(n: Node, term: nat, c: NodeId, li: nat, lt: nat)
    ensures Times(AnswerVote(n, term, c, li, lt).actions,
                  term == n.Term() && n.hardState.votedFor in {None, Some(c)} && NoMoreAdvanced(n.log, li, lt),
                  false, false)
  {
    hide LogView.LastIndex, LogView.LastTerm;
    var o := AnswerVote(n, term, c, li, lt).actions;
    if ResetElectionTimer !in o {
      assert o == [Send(c, RequestVoteResponse(n.Term(), false))];
    }
  }

  lemma VotingTimed(n: Node, from: NodeId, m: Message)
    requires m.PreVoteRequest? || m.PreVoteResponse? || m.RequestVote? || m.RequestVoteResponse?
    requires n.configuration.Contains(from) && from != n.id
    ensures Timed(n, Receive(from, m), OnMessage(n, from, m).actions)
  {
    hide LogView.LastIndex, LogView.LastTerm, FollowAndReset, StartElection, BecomeLeader, OnVoteRequest, Times, Timed,
         Configuration.Quorum, Votes;
    var input, actions := Receive(from, m), OnMessage(n, from, m).actions;
    UntimedTimes([]);
    var counted := n.(votes := n.votes + {from});
    match m
    case PreVoteRequest(_, _, _, _) =>
      UntimedTimes(actions);
      TimesTimed(n, input, actions, false);
    case PreVoteResponse(rt, t, _) =>
      ResetTimes(n, rt);
      ElectionTimes(counted, t);
      TimesTimed(n, input, actions, rt <= n.Term() && Nominated(n, from, m) && n.configuration.Quorum({n.id}));
    case RequestVote(t, c, i, lt) =>
      VoteRequestTimes(n, from, m);
      TimesTimed(n, input, actions, false);
    case RequestVoteResponse(t, granted) =>
      ResetTimes(n, t);
      LeaderTimes(counted);
      TimesTimed(n, input, actions, t == n.Term() && n.role == Candidate && granted
                                    && n.configuration.Quorum(counted.votes));
  }

  lemma ReplicatingTimed(n: Node, from: NodeId, m: Message)
    requires m.AppendEntries? || m.AppendEntriesResponse? || m.InstallSnapshot? || m.InstallSnapshotResponse?
    requires n.configuration.Contains(from) && from != n.id
    ensures Timed(n, Receive(from, m), OnMessage(n, from, m).actions)
  {
    hide LogView.LastIndex, FollowAndReset, BecomeFollower, CheckPrevious, ReceiveChunk, Times, Timed,
         AcknowledgeRead, MatchReported, ConflictReported, SendAppend, AdvanceLeaderCommit;
    var input, actions := Receive(from, m), OnMessage(n, from, m).actions;
    UntimedTimes([]);
    if m.AppendEntries? || m.InstallSnapshot? {
      var f := BecomeFollower(n, m.term, Some(from)).node;
      var rest := if m.AppendEntries? then CheckPrevious(f, from, m).actions else ReceiveChunk(f, from, m).actions;
      if m.AppendEntries? {
        PreviousUntimed(f, from, m);
      } else {
        ChunkUntimed(f, from, m);
      }
      HeardTimes(n, m.term, from, rest);
      if !Rearms(n, from, m) {
        UntimedTimes(actions);
      }
    } else {
      ResetTimes(n, m.term);
      if m.term <= n.Term() {
        if m.AppendEntriesResponse? {
          AppendResponseUntimed(n, from, m);
        } else {
          SnapshotResponseUntimed(n, from, m);
        }
        UntimedTimes(actions);
      }
    }
    TimesTimed(n, input, actions, false);
  }

  lemma HandleTimed(n: Node, input: Input)
    ensures Timed(n, input, Handle(n, input).actions)
  {
    hide OnTick, OnMessage, OnPropose, OnReadIndex, OnSnapshotBuilt, Timed, Rearms, Configuration.Quorum;
    match input {
      case TickInput(tick) => TickTimed(n, tick);
      case Receive(from, m) =>
        if !n.configuration.Contains(from) || from == n.id {
          assert OnMessage(n, from, m) == Out(n, []) by { Stranger(n, from, m); }
        } else if m.PreVoteRequest? || m.PreVoteResponse? || m.RequestVote? || m.RequestVoteResponse? {
          VotingTimed(n, from, m);
        } else {
          ReplicatingTimed(n, from, m);
        }
      case Propose(id, command) => ProposeUntimed(n, id, command);
      case ReadIndex(context) => ReadIndexUntimed(n, context);
      case SnapshotBuilt(s) => BuiltUntimed(n, s);
    }
    if Untimed(Handle(n, input).actions) && !Restarts(n, input)
       && !(input == TickInput(Heartbeat) && n.role == Leader) {
      UntimedTimes(Handle(n, input).actions);
      TimesTimed(n, input, Handle(n, input).actions, false);
    }
  }

  lemma Stranger(n: Node, from: NodeId, m: Message)
    requires !n.configuration.Contains(from) || from == n.id
    ensures OnMessage(n, from, m) == Out(n, [])
  {
  }

  /** When timers start anew: the election timer exactly where a node sets out to campaign,
      gives up leading for want of a quorum, gives its vote, hears from a leader of its term
      or a later one, or learns from an answer that its term is over; the heartbeat timer
      exactly where a leader has sent heartbeats or has just taken office. */
  lemma TimersExactly(n: Node, input: Input)
    ensures ResetElectionTimer in Step(n, input).actions <==> Restarts(n, input)
    ensures ResetHeartbeatTimer in Step(n, input).actions <==>
              || (input == TickInput(Heartbeat) && n.role == Leader)
              || exists a :: a in Step(n, input).actions && Announces(a)
  {
    hide ApplyCommitted, Handle, Step, LogView.LastIndex, LogView.LastTerm, Configuration.Quorum;
    var replay := ApplyCommitted(n);
    ApplyKeepsRole(n);
    ApplyUntimed(n);
    HandleTimed(replay.node, input);
    StepSplit(n, input);
    var actions := Handle(replay.node, input).actions;
    if a :| a in actions && Announces(a) {
      assert a in Step(n, input).actions;
    }
  }

  // ---------------------------------------------------------------------- heartbeats

  predicate Beat(m: Message, term: nat) {
    (m.AppendEntries? || m.InstallSnapshot?) && m.term == term
  }

  /** In every run a leader's heartbeat goes to every other participant. */
  lemma HeartbeatReaches(cfg: Configuration, events: seq<Event>, j: nat, n: NodeId, p: NodeId) returns (m: Message)
    requires ClusterRun(cfg, events) && j < |events| && events[j] == Event(n, TickInput(Heartbeat), None)
    requires n in At(cfg, events, j).nodes && At(cfg, events, j).nodes[n].role == Leader
    requires p in cfg.participants && p != n
    ensures SentAt(cfg, events, j, n, p, m) && Beat(m, At(cfg, events, j).nodes[n].Term())
  {
    hide ClusterRun, At, Step, SystemInv, Allowed, Executed, Next;
    var sys := At(cfg, events, j);
    var past, q, end := Moments(cfg, events, false, NoRead, j, j);
    AtNext(cfg, events, j);
    Uncrashed(sys, events[j]);
    AtBacked(cfg, events, j);
    m := BeatSent(sys, past, n, p);
  }

  lemma BeatSent(sys: System, past: Past, n: NodeId, p: NodeId) returns (m: Message)
    requires SystemInv(sys, past) && n in sys.nodes && sys.nodes[n].role == Leader
    requires p in sys.cfg.participants && p != n
    ensures Send(p, m) in Step(sys.nodes[n], TickInput(Heartbeat)).actions && Beat(m, sys.nodes[n].Term())
  {
    hide SystemInv, ApplyCommitted, Step, SendAppend, Broadcast, PacketOk;
    var node := sys.nodes[n];
    LeaderProgress(sys, past, n);
    ConfigurationOf(sys, past, n);
    ApplyKeepsRole(node);
    StepSplit(node, TickInput(Heartbeat));
    var replayed := ApplyCommitted(node).node;
    SendAppendOk(sys, past, n, p, None);
    SameSend(node, replayed, p);
    m := OneSend(node, p);
    var sent := Send(p, m);
    assert sent in SendAppend(replayed, p, None);
    RaftRuns.BroadcastSends(replayed, replayed.Peers(), None, p);
    assert sent in Handle(replayed, TickInput(Heartbeat)).actions;
  }

  lemma SameSend(node: Node, replayed: Node, p: NodeId)
    requires replayed == node.(appliedIndex := replayed.appliedIndex)
    ensures SendAppend(replayed, p, None) == SendAppend(node, p, None)
  {
    hide LogView.Term, LogView.LastIndex, LogView.EntriesFrom;
  }

  lemma OneSend(node: Node, p: NodeId) returns (m: Message)
    requires p in node.progress && forall a :: a in SendAppend(node, p, None) ==> a.Send?
    ensures Send(p, m) in SendAppend(node, p, None) && Beat(m, node.Term())
  {
    hide LogView.Term, LogView.LastIndex, LogView.EntriesFrom;
    assert SendAppend(node, p, None)[0] in SendAppend(node, p, None);
    m := SendAppend(node, p, None)[0].message;
  }
}
