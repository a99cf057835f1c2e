/** The round before an election, over every run: who grants, to whom, and what a
    campaign for votes has gathered before it starts. */
module RaftPreVotes {
  import opened Wrappers
  import opened Ordering
  import opened RaftTypes
  import opened RaftLog
  import opened RaftNode
  import opened RaftCluster
  import opened RaftElections
  import opened RaftTheorems
  import StableStore

  // ------------------------------------------------------------ what stays out of it

  /** Asking for a grant, granting, or campaigning. */
  predicate Electioneering(m: Message) {
    m.PreVoteRequest? || (m.PreVoteResponse? && m.granted) || m.RequestVote?
  }

  predicate Quiet(actions: seq<Action>) {
    forall a {:trigger a in actions} :: a in actions && a.Send? ==> !Electioneering(a.message)
  }

  /** The same node to the same cluster; a round it is in, it was in with the same tally. */
  predicate Same(n: Node, m: Node) {
    && m.id == n.id && m.configuration == n.configuration
    && (m.role == PreCandidate ==> n.role == PreCandidate && m.votes == n.votes && m.campaignTerm == n.campaignTerm)
  }

  predicate Calm(n: Node, o: Out) {
    Quiet(o.actions) && Same(n, o.node)
  }

  lemma {:induction false} ApplyCalm(n: Node)
    ensures Calm(n, ApplyCommitted(n))
    decreases n.hardState.commitIndex - n.appliedIndex
  {
    hide LogView.Entry;
    if n.appliedIndex < n.hardState.commitIndex && n.log.Entry(n.appliedIndex + 1).Some? {
      ApplyCalm(n.(appliedIndex := n.appliedIndex + 1));
    }
  }

  lemma SetCommitCalm(n: Node, commit: nat)
    ensures Calm(n, SetCommit(n, commit))
  {
    hide LogView.LastIndex;
    var hs := n.hardState.(commitIndex := commit);
    ApplyCalm(n.(hardState := hs));
  }

  lemma AdvanceCalm(n: Node)
    ensures Calm(n, AdvanceLeaderCommit(n))
  {
    hide SetCommit, Configuration.QuorumIndex, Node.Matched, LogView.Term;
    SetCommitCalm(n, n.configuration.QuorumIndex(n.Matched()));
  }

  lemma AppendQuiet(n: Node, peer: NodeId, context: Option<Bytes>)
    ensures Quiet(SendAppend(n, peer, context))
  {
    hide LogView.Term, LogView.LastIndex, LogView.EntriesFrom;
  }

  lemma {:induction false} BroadcastQuiet(n: Node, peers: seq<NodeId>, context: Option<Bytes>)
    ensures Quiet(Broadcast(n, peers, context))
    decreases |peers|
  {
    hide SendAppend;
    if peers != [] {
      AppendQuiet(n, peers[0], context);
      BroadcastQuiet(n, peers[1..], context);
    }
  }

  lemma FollowCalm(n: Node, term: nat, leader: Option<NodeId>)
    ensures Calm(n, BecomeFollower(n, term, leader)) && BecomeFollower(n, term, leader).node.role == Follower
  {
    hide Sorted;
  }

  lemma ResetCalm(n: Node, term: nat)
    ensures Calm(n, FollowAndReset(n, term))
  {
    hide BecomeFollower;
    FollowCalm(n, term, None);
  }

  lemma LeaderCalm(n: Node)
    ensures Calm(n, BecomeLeader(n))
  {
    hide AdvanceLeaderCommit, Broadcast, InitialProgress, LogView.LastIndex, LogView.Append;
    var entry := LogEntry(n.log.LastIndex() + 1, n.Term(), Noop);
    var m := n.(role := Leader, leaderId := Some(n.id), votes := {}, pendingReads := map[],
                log := n.log.Append([entry]), progress := InitialProgress(n, entry.index),
                recentActive := n.configuration.participants);
    var o := AdvanceLeaderCommit(m).node;
    AdvanceCalm(m);
    BroadcastQuiet(o, o.Peers(), None);
  }

  // ---------------------------------------------------------------- other handlers

  lemma VoteRequestCalm(n: Node, from: NodeId, term: nat, c: NodeId, li: nat, lt: nat)
    ensures Calm(n, OnVoteRequest(n, from, term, c, li, lt))
  {
    hide BecomeFollower, LogView.LastIndex, LogView.LastTerm;
    FollowCalm(n, term, None);
  }

  lemma VoteResponseCalm(n: Node, from: NodeId, term: nat, granted: bool)
    ensures Calm(n, OnVoteResponse(n, from, term, granted))
  {
    hide FollowAndReset, BecomeLeader, Configuration.Quorum;
    ResetCalm(n, term);
    LeaderCalm(n.(votes := n.votes + {from}));
  }

  lemma FinishCalm(n: Node, from: NodeId, m: Message)
    requires m.AppendEntries?
    ensures Calm(n, FinishAppend(n, from, m))
  {
    hide SetCommit, LogView.LastIndex;
    var last := n.log.LastIndex();
    SetCommitCalm(n, if m.leaderCommit <= last then m.leaderCommit else last);
  }

  lemma PreviousCalm(n: Node, from: NodeId, m: Message)
    requires m.AppendEntries?
    ensures Calm(n, CheckPrevious(n, from, m))
  {
    hide FinishAppend, ScanFrom, ValidEntrySequence, LogView.Term, LogView.LastIndex, LogView.FirstIndexOfTerm,
         LogView.TruncateAndAppend;
    FinishCalm(n, from, m);
    var scan := ScanFrom(n.log, n.hardState.commitIndex, m.entries, 0);
    if scan.ChangedAt? {
      var p := scan.position;
      FinishCalm(WriteSuffix(n, scan.index, m.entries[if p <= |m.entries| then p else |m.entries|..]).node, from, m);
    }
  }

  lemma AppendCalm(n: Node, from: NodeId, m: Message)
    requires m.AppendEntries?
    ensures Calm(n, OnAppendEntries(n, from, m))
  {
    hide BecomeFollower, CheckPrevious, LogView.LastIndex;
    FollowCalm(n, m.term, Some(from));
    PreviousCalm(BecomeFollower(n, m.term, Some(from)).node, from, m);
  }

  lemma ReadAckCalm(n: Node, from: NodeId, context: Bytes)
    ensures Calm(n, AcknowledgeRead(n, from, context))
  {
    hide Configuration.Quorum;
  }

  lemma ReportCalm(n: Node, from: NodeId, m: Message)
    requires m.AppendEntriesResponse?
    ensures Calm(n, MatchReported(n, from, m)) && Calm(n, ConflictReported(n, from, m))
  {
    hide AdvanceLeaderCommit, SendAppend, ResumeIndex, LogView.LastIndex;
    var p := if from in n.progress then n.(progress := n.progress[from := Raised(n.progress[from], m.matchIndex)])
        else n;
    AdvanceCalm(p);
    AppendQuiet(AdvanceLeaderCommit(p).node, from, None);
    var next := ResumeIndex(n, m);
    var q := if from in n.progress then n.(progress := n.progress[from := Lowered(n.progress[from], next)]) else n;
    AppendQuiet(q, from, None);
  }

  lemma AppendResponseCalm(n: Node, from: NodeId, m: Message)
    requires m.AppendEntriesResponse?
    ensures Calm(n, OnAppendResponse(n, from, m))
  {
    hide FollowAndReset, AcknowledgeRead, MatchReported, ConflictReported;
    ResetCalm(n, m.term);
    var active := n.(recentActive := n.recentActive + {from});
    if m.readContext.Some? {
      ReadAckCalm(active, from, m.readContext.value);
    }
    var read := if m.readContext.Some? then AcknowledgeRead(active, from, m.readContext.value) else Out(active, []);
    ReportCalm(read.node, from, m);
  }

  lemma ChunkCalm(n: Node, from: NodeId, m: Message)
    requires m.InstallSnapshot?
    ensures Calm(n, ReceiveChunk(n, from, m))
  {
    hide Sha256, LogView.Term, LogView.Compact;
  }

  lemma InstallCalm(n: Node, from: NodeId, m: Message)
    requires m.InstallSnapshot?
    ensures Calm(n, OnInstallSnapshot(n, from, m))
  {
    hide BecomeFollower, ReceiveChunk;
    FollowCalm(n, m.term, Some(from));
    ChunkCalm(BecomeFollower(n, m.term, Some(from)).node, from, m);
  }

  lemma SnapshotResponseCalm(n: Node, from: NodeId, m: Message)
    requires m.InstallSnapshotResponse?
    ensures Calm(n, OnSnapshotResponse(n, from, m))
  {
    hide FollowAndReset, AdvanceLeaderCommit, SendAppend;
    ResetCalm(n, m.term);
    var active := n.(recentActive := n.recentActive + {from});
    if from in active.progress {
      var p := active.(progress := active.progress[from := Raised(active.progress[from], m.matchIndex)]);
      AdvanceCalm(p);
      AppendQuiet(AdvanceLeaderCommit(p).node, from, None);
      var q := active.(progress := active.progress[from :=
                 active.progress[from].(snapshotOffset := Some(if m.accepted then m.nextOffset else 0))]);
      AppendQuiet(q, from, None);
    }
  }

  lemma ProposeCalm(n: Node, id: nat, command: Bytes)
    ensures Calm(n, OnPropose(n, id, command))
  {
    hide AdvanceLeaderCommit, Broadcast, LogView.LastIndex, LogView.Append;
    var entry := LogEntry(n.log.LastIndex() + 1, n.Term(), Command(id, command));
    var m := n.(log := n.log.Append([entry]),
                progress := if n.id in n.progress
                            then n.progress[n.id := n.progress[n.id].(matchIndex := entry.index,
                                                                      nextIndex := entry.index + 1)]
                            else n.progress);
    AdvanceCalm(m);
    var o := AdvanceLeaderCommit(m).node;
    BroadcastQuiet(o, o.Peers(), None);
  }

  lemma ReadIndexCalm(n: Node, context: Bytes)
    ensures Calm(n, OnReadIndex(n, context))
  {
    hide Broadcast, LogView.Term, Configuration.Quorum;
    var m := n.(pendingReads := n.pendingReads[context := PendingRead(n.hardState.commitIndex, {n.id})]);
    BroadcastQuiet(m, m.Peers(), Some(context));
  }

  lemma BuiltCalm(n: Node, s: PersistentSnapshot)
    ensures Calm(n, OnSnapshotBuilt(n, s))
  {
    hide LogView.Term, LogView.Compact, PersistentSnapshot.Validate;
  }

  lemma TickCalm(n: Node, tick: Tick)
    requires !tick.Election?
    ensures Calm(n, OnTick(n, tick))
  {
    hide FollowAndReset, Broadcast, Configuration.Quorum;
    ResetCalm(n, n.Term());
    var m := n.(recentActive := {n.id});
    BroadcastQuiet(n, n.Peers(), None);
    BroadcastQuiet(m, m.Peers(), None);
  }

  // ------------------------------------------------------------- what a step may say

  /** By its last term and then its last index, the log is no more advanced than the one reported. */
  predicate NoMoreAdvanced(log: LogView, lastIndex: nat, lastTerm: nat) {
    log.LastTerm() < lastTerm || (log.LastTerm() == lastTerm && log.LastIndex() <= lastIndex)
  }

  /** A grant for `t` reaches the node while it asks for grants for `t`. */
  predicate Grants(n: Node, input: Input, t: nat) {
    && n.role == PreCandidate && n.campaignTerm == Some(t) && input.Receive?
    && input.message.PreVoteResponse? && input.message.granted && input.message.prospectiveTerm == t
  }

  /** Why a node may ask for a grant, give one, or campaign. */
  predicate Justified(n: Node, input: Input, a: Action) {
    a.Send? ==>
      match a.message
      case PreVoteRequest(t, c, i, lt) =>
        && input == TickInput(Election) && c == n.id && t == n.Term() + 1
        && i == n.log.LastIndex() && lt == n.log.LastTerm()
      case PreVoteResponse(rt, t, granted) =>
        granted ==>
          && input.Receive? && input.from == a.to && input.message.PreVoteRequest?
          && input.message.candidateId == a.to && input.message.prospectiveTerm == t && rt == n.Term() < t
          && NoMoreAdvanced(n.log, input.message.lastLogIndex, input.message.lastLogTerm)
      case RequestVote(t, c, i, lt) =>
        && c == n.id && i == n.log.LastIndex() && lt == n.log.LastTerm()
        && Grants(n, input, t) && n.configuration.Quorum(n.votes + {input.from})
      case _ => true
  }

  predicate AllJustified(n: Node, input: Input, actions: seq<Action>) {
    forall a {:trigger a in actions} :: a in actions ==> Justified(n, input, a)
  }

  /** How a step may change the tally of a round. */
  predicate Tallies(n: Node, input: Input, m: Node) {
    && m.id == n.id && m.configuration == n.configuration
    && (m.role == PreCandidate ==>
          || (m.votes == {n.id} && m.campaignTerm == Some(n.Term() + 1))
          || (&& n.role == PreCandidate && m.campaignTerm == n.campaignTerm
              && (m.votes == n.votes
                  || (m.campaignTerm.Some? && Grants(n, input, m.campaignTerm.value)
                      && m.votes == n.votes + {input.from}))))
  }

  predicate Proper(n: Node, input: Input, o: Out) {
    AllJustified(n, input, o.actions) && Tallies(n, input, o.node)
  }

  lemma CalmProper(n: Node, input: Input, o: Out)
    requires Calm(n, o)
    ensures Proper(n, input, o)
  {
    hide LogView.LastIndex, LogView.LastTerm, Configuration.Quorum;
  }

  lemma ElectionTickProper(n: Node)
    ensures Proper(n, TickInput(Election), OnTick(n, Election))
  {
    hide BecomeLeader, LogView.LastIndex, LogView.LastTerm, Configuration.Quorum, NoMoreAdvanced;
    if n.role != Leader && n.configuration.Quorum({n.id}) {
      var m := n.(role := PreCandidate, leaderId := None, campaignTerm := Some(n.Term() + 1), votes := {n.id});
      var hs := m.hardState.(currentTerm := n.Term() + 1, votedFor := Some(n.id));
      LeaderCalm(m.(hardState := hs, role := Candidate, campaignTerm := None, votes := {n.id}));
    }
  }

  lemma PreVoteRequestProper(n: Node, from: NodeId, t: nat, c: NodeId, i: nat, lt: nat)
    ensures Proper(n, Receive(from, PreVoteRequest(t, c, i, lt)), OnPreVoteRequest(n, from, t, c, i, lt))
  {
    hide LogView.LastIndex, LogView.LastTerm, Configuration.Quorum;
  }

  lemma PreVoteResponseProper(n: Node, from: NodeId, rt: nat, t: nat, granted: bool)
    ensures Proper(n, Receive(from, PreVoteResponse(rt, t, granted)), OnPreVoteResponse(n, from, rt, t, granted))
  {
    hide FollowAndReset, BecomeLeader, LogView.LastIndex, LogView.LastTerm, Configuration.Quorum, NoMoreAdvanced;
    var input := Receive(from, PreVoteResponse(rt, t, granted));
    if rt > n.Term() {
      ResetCalm(n, rt);
      CalmProper(n, input, FollowAndReset(n, rt));
    } else {
      var hs := n.hardState.(currentTerm := t, votedFor := Some(n.id));
      LeaderCalm(n.(hardState := hs, role := Candidate, campaignTerm := None, votes := {n.id}));
    }
  }

  lemma MessageProper(n: Node, from: NodeId, m: Message)
    ensures Proper(n, Receive(from, m), OnMessage(n, from, m))
  {
    hide Proper, Calm, OnPreVoteRequest, OnPreVoteResponse, OnVoteRequest, OnVoteResponse, OnAppendEntries,
         OnAppendResponse, OnInstallSnapshot, OnSnapshotResponse;
    var o := OnMessage(n, from, m);
    if !n.configuration.Contains(from) || from == n.id {
      NothingCalm(n);
      CalmProper(n, Receive(from, m), o);
    } else {
      match m {
        case PreVoteRequest(t, c, i, lt) => PreVoteRequestProper(n, from, t, c, i, lt);
        case PreVoteResponse(rt, t, granted) => PreVoteResponseProper(n, from, rt, t, granted);
        case RequestVote(t, c, i, lt) => VoteRequestCalm(n, from, t, c, i, lt);
        case RequestVoteResponse(t, granted) => VoteResponseCalm(n, from, t, granted);
        case AppendEntries(_, _, _, _, _, _, _) => AppendCalm(n, from, m);
        case AppendEntriesResponse(_, _, _, _, _, _) => AppendResponseCalm(n, from, m);
        case InstallSnapshot(_, _, _, _, _, _) => InstallCalm(n, from, m);
        case InstallSnapshotResponse(_, _, _, _, _) => SnapshotResponseCalm(n, from, m);
      }
      if !m.PreVoteRequest? && !m.PreVoteResponse? {
        CalmProper(n, Receive(from, m), o);
      }
    }
  }

  lemma NothingCalm(n: Node)
    ensures Calm(n, Out(n, []))
  {
  }

  lemma HandleProper(n: Node, input: Input)
    ensures Proper(n, input, Handle(n, input))
  {
    hide Proper, Calm, OnTick, OnMessage, OnPropose, OnReadIndex, OnSnapshotBuilt;
    match input {
      case TickInput(tick) =>
        if tick == Election {
          ElectionTickProper(n);
        } else {
          TickCalm(n, tick);
        }
      case Receive(from, message) => MessageProper(n, from, message);
      case Propose(id, command) => ProposeCalm(n, id, command);
      case ReadIndex(context) => ReadIndexCalm(n, context);
      case SnapshotBuilt(snapshot) => BuiltCalm(n, snapshot);
    }
    if input != TickInput(Election) && !input.Receive? {
      CalmProper(n, input, Handle(n, input));
    }
  }

  lemma StepProper(n: Node, input: Input)
    ensures Proper(n, input, Step(n, input))
  {
    hide ApplyCommitted, Handle, OnTick, OnMessage, OnPropose, OnReadIndex, OnSnapshotBuilt, Configuration.Quorum,
         LogView.LastIndex, LogView.LastTerm;
    var replay := ApplyCommitted(n);
    ApplyKeepsRole(n);
    ApplyCalm(n);
    HandleProper(replay.node, input);
    StepSplit(n, input);
    CalmProper(n, input, replay);
    forall a | a in Step(n, input).actions ensures Justified(n, input, a) {
      assert a in replay.actions || Justified(replay.node, input, a);
    }
  }

  lemma StepSplit(n: Node, input: Input)
    ensures Step(n, input) == Then(ApplyCommitted(n), Handle(ApplyCommitted(n).node, input))
  {
    hide ApplyCommitted, OnTick, OnMessage, OnPropose, OnReadIndex, OnSnapshotBuilt;
  }

  // --------------------------------------------------------------------------- runs

  predicate IsGrant(p: Packet, v: NodeId, c: NodeId, t: nat) {
    p.from == v && p.to == c && p.message.PreVoteResponse? && p.message.granted && p.message.prospectiveTerm == t
  }

  ghost predicate Granted(net: set<Packet>, v: NodeId, c: NodeId, t: nat) {
    exists p {:trigger IsGrant(p, v, c, t)} :: p in net && IsGrant(p, v, c, t)
  }

  /** Whoever a round counts, besides the node itself, has sent it a grant. */
  ghost predicate Backed(cfg: Configuration, net: set<Packet>, n: NodeId, node: Node) {
    && node.id == n && node.configuration == cfg
    && (node.role == PreCandidate ==>
          && node.campaignTerm.Some? && n in node.votes
          && forall v :: v in node.votes && v != n ==> Granted(net, v, n, node.campaignTerm.value))
  }

  ghost predicate AllBacked(sys: System) {
    forall n {:trigger sys.nodes[n]} :: n in sys.nodes ==> Backed(sys.cfg, sys.net, n, sys.nodes[n])
  }

  lemma BackedLater(cfg: Configuration, net: set<Packet>, more: set<Packet>, n: NodeId, node: Node)
    requires Backed(cfg, net, n, node) && net <= more
    ensures Backed(cfg, more, n, node)
  {
    if node.role == PreCandidate {
      forall v | v in node.votes && v != n ensures Granted(more, v, n, node.campaignTerm.value) {
        var p :| p in net && IsGrant(p, v, n, node.campaignTerm.value);
        assert p in more;
      }
    }
  }

  lemma StepBacked(cfg: Configuration, net: set<Packet>, n: NodeId, node: Node, input: Input, next: Node)
    requires Backed(cfg, net, n, node) && Tallies(node, input, next)
    requires input.Receive? ==> Packet(input.from, n, input.message) in net
    ensures Backed(cfg, net, n, next)
  {
    if next.role == PreCandidate {
      forall v | v in next.votes && v != n ensures Granted(net, v, n, next.campaignTerm.value) {
        if v !in node.votes || node.role != PreCandidate {
          assert IsGrant(Packet(v, n, input.message), v, n, next.campaignTerm.value);
        }
      }
    }
  }

  lemma RebootBacked(sys: System, n: NodeId, actions: seq<Action>)
    requires n in sys.nodes && Reboot(sys, n, actions).Ok?
    ensures Backed(sys.cfg, sys.net, n, Reboot(sys, n, actions).value)
  {
    hide EntriesRecoverable, PersistentSnapshot.Validate, LogView.New, LogView.LastIndex, StableStore.ExecuteAll;
  }

  lemma NextBacked(sys: System, e: Event)
    requires Allowed(sys, e) && AllBacked(sys)
    ensures AllBacked(Next(sys, e)) && Next(sys, e).cfg == sys.cfg
  {
    hide Step, Executed, Reboot, Backed, Accepts, Tallies, AllJustified;
    var next, node := Next(sys, e), sys.nodes[e.node];
    assert sys.net <= next.net && next.cfg == sys.cfg;
    assert next.nodes == sys.nodes[e.node := next.nodes[e.node]];
    assert Backed(sys.cfg, sys.net, e.node, node);
    if e.crash.None? {
      StepProper(node, e.input);
      StepBacked(sys.cfg, sys.net, e.node, node, e.input, next.nodes[e.node]);
    } else if Reboot(sys, e.node, Executed(sys, e)).Ok? {
      RebootBacked(sys, e.node, Executed(sys, e));
    }
    forall n | n in next.nodes ensures Backed(next.cfg, next.net, n, next.nodes[n]) {
      assert n == e.node || next.nodes[n] == sys.nodes[n];
      BackedLater(sys.cfg, sys.net, next.net, n, next.nodes[n]);
    }
  }

  lemma {:induction false} AtBacked(cfg: Configuration, events: seq<Event>, j: nat)
    requires ClusterRun(cfg, events) && j <= |events|
    ensures AllBacked(At(cfg, events, j)) && At(cfg, events, j).cfg == cfg
    decreases j
  {
    hide ValidRun, Allowed, Next, AllBacked;
    if j == 0 {
      assert events[..0] == [];
      InitialBacked(cfg);
    } else {
      AtBacked(cfg, events, j - 1);
      AtNext(cfg, events, j - 1);
      NextBacked(At(cfg, events, j - 1), events[j - 1]);
    }
  }

  lemma InitialBacked(cfg: Configuration)
    ensures AllBacked(Initial(cfg)) && Initial(cfg).cfg == cfg
  {
  }

  /** The event at `k` sends the message. */
  predicate SentAt(cfg: Configuration, events: seq<Event>, k: nat, from: NodeId, to: NodeId, m: Message)
    requires ClusterRun(cfg, events)
  {
    && k < |events| && events[k].node == from && Allowed(At(cfg, events, k), events[k])
    && Send(to, m) in Executed(At(cfg, events, k), events[k])
  }

  lemma NextNet(sys: System, e: Event, p: Packet)
    requires Allowed(sys, e) && p in Next(sys, e).net
    ensures p in sys.net || (p.from == e.node && Send(p.to, p.message) in Executed(sys, e))
  {
    hide Step, Executed, Reboot, Accepts;
  }

  /** Whatever is under way was sent before. */
  lemma {:induction false} SentBefore(cfg: Configuration, events: seq<Event>, j: nat, p: Packet) returns (k: nat)
    requires ClusterRun(cfg, events) && j <= |events| && p in At(cfg, events, j).net
    ensures k < j && SentAt(cfg, events, k, p.from, p.to, p.message)
    decreases j
  {
    hide ClusterRun, At, Allowed, Next, Executed;
    NothingSent(cfg, events);
    assert j > 0;
    AtNext(cfg, events, j - 1);
    NextNet(At(cfg, events, j - 1), events[j - 1], p);
    if p in At(cfg, events, j - 1).net {
      k := SentBefore(cfg, events, j - 1, p);
    } else {
      k := j - 1;
    }
  }

  lemma NothingSent(cfg: Configuration, events: seq<Event>)
    requires ClusterRun(cfg, events)
    ensures At(cfg, events, 0).net == {}
  {
    assert events[..0] == [];
  }

  lemma SentJustified(cfg: Configuration, events: seq<Event>, k: nat, from: NodeId, to: NodeId, m: Message)
    requires ClusterRun(cfg, events) && SentAt(cfg, events, k, from, to, m)
    ensures from in At(cfg, events, k).nodes
    ensures Justified(At(cfg, events, k).nodes[from], events[k].input, Send(to, m))
    ensures events[k].input.Receive? ==>
              Packet(events[k].input.from, from, events[k].input.message) in At(cfg, events, k).net
  {
    hide At, ClusterRun, Step, Justified, Tallies, Usable;
    var sys := At(cfg, events, k);
    var node := sys.nodes[from];
    StepProper(node, events[k].input);
    assert Send(to, m) in Step(node, events[k].input).actions;
  }

  // ----------------------------------------------------------------------- theorems

  /** At `k` the node `v` gives `c` its grant for `t`: its term is below `t` and its log no
      more advanced than `c`'s was when, at `r`, `c` asked from the term before `t`. */
  predicate SupportAt(cfg: Configuration, events: seq<Event>, r: nat, k: nat, v: NodeId, c: NodeId, t: nat)
    requires ClusterRun(cfg, events)
  {
    && r < k < |events| && c in At(cfg, events, r).nodes && v in At(cfg, events, k).nodes
    && var asker, giver := At(cfg, events, r).nodes[c], At(cfg, events, k).nodes[v];
       && SentAt(cfg, events, r, c, v, PreVoteRequest(t, c, asker.log.LastIndex(), asker.log.LastTerm()))
       && SentAt(cfg, events, k, v, c, PreVoteResponse(giver.Term(), t, true))
       && asker.Term() + 1 == t && giver.Term() < t
       && NoMoreAdvanced(giver.log, asker.log.LastIndex(), asker.log.LastTerm())
  }

  ghost predicate Supported(cfg: Configuration, events: seq<Event>, j: nat, v: NodeId, c: NodeId, t: nat)
    requires ClusterRun(cfg, events)
  {
    exists r: nat, k: nat {:trigger SupportAt(cfg, events, r, k, v, c, t)} ::
      k < j && SupportAt(cfg, events, r, k, v, c, t)
  }

  /** Every grant was due: it answers a request the candidate had sent before, from the
      term before, and the giver's term and log were not ahead. */
  lemma GrantWasDue(cfg: Configuration, events: seq<Event>, k: nat, v: NodeId, c: NodeId, rt: nat, t: nat)
    returns (r: nat)
    requires ClusterRun(cfg, events) && SentAt(cfg, events, k, v, c, PreVoteResponse(rt, t, true))
    ensures SupportAt(cfg, events, r, k, v, c, t)
  {
    hide ClusterRun, At, SentAt, LogView.LastIndex, LogView.LastTerm, Configuration.Quorum;
    SentWithin(cfg, events, k, v, c, PreVoteResponse(rt, t, true));
    SentJustified(cfg, events, k, v, c, PreVoteResponse(rt, t, true));
    var m := events[k].input.message;
    r := SentBefore(cfg, events, k, Packet(c, v, m));
    SentJustified(cfg, events, r, c, v, m);
    AtBacked(cfg, events, r);
  }

  lemma SentWithin(cfg: Configuration, events: seq<Event>, k: nat, from: NodeId, to: NodeId, m: Message)
    requires ClusterRun(cfg, events) && SentAt(cfg, events, k, from, to, m)
    ensures k < |events|
  {
  }

  /** Every campaign was granted: when a node asks for votes in term `t`, it has been asking
      for grants for `t`, and a quorum, itself included, has given them. */
  lemma CampaignWasGranted(cfg: Configuration, events: seq<Event>, j: nat, c: NodeId, to: NodeId, m: Message)
    returns (quorum: set<NodeId>)
    requires ClusterRun(cfg, events) && SentAt(cfg, events, j, c, to, m) && m.RequestVote?
    ensures c in At(cfg, events, j).nodes
    ensures var node := At(cfg, events, j).nodes[c];
            && m.candidateId == c && m.lastLogIndex == node.log.LastIndex() && m.lastLogTerm == node.log.LastTerm()
            && node.role == PreCandidate && node.campaignTerm == Some(m.term)
    ensures cfg.Quorum(quorum) && c in quorum
    ensures forall v {:trigger v in quorum} :: v in quorum && v != c ==> Supported(cfg, events, j, v, c, m.term)
  {
    hide ClusterRun, At, SentAt, LogView.LastIndex, LogView.LastTerm, Configuration.Quorum, SupportAt;
    SentJustified(cfg, events, j, c, to, m);
    SentWithin(cfg, events, j, c, to, m);
    AtBacked(cfg, events, j);
    var sys, input := At(cfg, events, j), events[j].input;
    var node := sys.nodes[c];
    assert Backed(cfg, sys.net, c, node);
    quorum := node.votes + {input.from};
    assert IsGrant(Packet(input.from, c, input.message), input.from, c, m.term);
    forall v | v in quorum && v != c ensures Supported(cfg, events, j, v, c, m.term) {
      assert Granted(sys.net, v, c, m.term);
      var p :| p in sys.net && IsGrant(p, v, c, m.term);
      var k := SentBefore(cfg, events, j, p);
      var r := GrantWasDue(cfg, events, k, v, c, p.message.responderTerm, m.term);
      assert SupportAt(cfg, events, r, k, v, c, m.term);
    }
  }

  /** Every request that is due is granted, and answering one, granted or not, leaves the
      node as it was but for what it had still to apply. */
  lemma DueIsGranted(cfg: Configuration, events: seq<Event>, k: nat, v: NodeId, c: NodeId, t: nat, i: nat, lt: nat)
    requires ClusterRun(cfg, events) && k < |events| && c in cfg.participants && c != v
    requires events[k] == Event(v, Receive(c, PreVoteRequest(t, c, i, lt)), None)
    ensures v in At(cfg, events, k).nodes && v in At(cfg, events, k + 1).nodes
    ensures var node, next := At(cfg, events, k).nodes[v], At(cfg, events, k + 1).nodes[v];
            && SentAt(cfg, events, k, v, c,
                      PreVoteResponse(node.Term(), t, node.Term() < t && NoMoreAdvanced(node.log, i, lt)))
            && next == node.(appliedIndex := next.appliedIndex)
  {
    hide ClusterRun, At, Step, NoMoreAdvanced, Backed, Next, Executed, Allowed;
    AtNext(cfg, events, k);
    AtBacked(cfg, events, k);
    var sys := At(cfg, events, k);
    Uncrashed(sys, events[k]);
    BackedIs(cfg, sys.net, v, sys.nodes[v]);
    PreVoteAnswer(sys.nodes[v], c, t, i, lt);
  }

  lemma Uncrashed(sys: System, e: Event)
    requires Allowed(sys, e) && e.crash.None?
    ensures e.node in sys.nodes && e.node in Next(sys, e).nodes
    ensures Next(sys, e).nodes[e.node] == Step(sys.nodes[e.node], e.input).node
    ensures Executed(sys, e) == Step(sys.nodes[e.node], e.input).actions
  {
    hide Step, Accepts;
  }

  lemma BackedIs(cfg: Configuration, net: set<Packet>, n: NodeId, node: Node)
    requires Backed(cfg, net, n, node)
    ensures node.id == n && node.configuration == cfg
  {
  }

  lemma PreVoteAnswer(n: Node, c: NodeId, t: nat, i: nat, lt: nat)
    requires n.configuration.Contains(c) && c != n.id
    ensures var o := Step(n, Receive(c, PreVoteRequest(t, c, i, lt)));
            && Send(c, PreVoteResponse(n.Term(), t, n.Term() < t && NoMoreAdvanced(n.log, i, lt))) in o.actions
            && o.node == n.(appliedIndex := o.node.appliedIndex)
  {
    hide ApplyCommitted, Step, LogView.LastIndex, LogView.LastTerm;
    ApplyKeepsRole(n);
    StepSplit(n, Receive(c, PreVoteRequest(t, c, i, lt)));
    var m := ApplyCommitted(n).node;
    var reply := Send(c, PreVoteResponse(n.Term(), t, n.Term() < t && NoMoreAdvanced(n.log, i, lt)));
    assert Handle(m, Receive(c, PreVoteRequest(t, c, i, lt))) == Out(m, [reply]);
    assert reply in [reply];
  }
}
