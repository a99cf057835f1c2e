/** Pre-votes, votes and becoming leader keep the cluster invariant at every prefix. */
module RaftVotes {
  import opened Wrappers
  import opened RaftTypes
  import opened RaftLog
  import opened RaftNode
  import opened RaftSafety
  import opened RaftCluster
  import opened RaftMoves
  import opened RaftElections
  import StableStore

  // ------------------------------------------------------------- volatile moves

  /** Changing only what a non-leading node forgets in a crash. */
  lemma VolatileSafe(sys: System, past: Past, n: NodeId, node: Node)
    requires SystemInv(sys, past) && n in sys.nodes
    requires NodeOk(sys.cfg, sys.built, past, n, node)
    requires node.Stable() == sys.nodes[n].Stable() && RoleOf(node.role) == RoleOf(sys.nodes[n].role)
    requires node.log == sys.nodes[n].log
    ensures Safe(sys, past, n, [], node, past)
  {
    hide SystemInv, Safe, NodeOk;
    PastExtendsReflexive(past);
    NoPackets(sys, past, n, []);
    SamePeer(sys, past, n, node, []);
    Silent(sys, past, n, node, past);
  }

  // ------------------------------------------------------------------ pre-votes

  function PreCandidacy(n: Node): Node {
    n.(role := PreCandidate, leaderId := None, campaignTerm := Some(n.Term() + 1), votes := {n.id})
  }

  lemma PreCandidacySafe(sys: System, past: Past, n: NodeId)
    requires SystemInv(sys, past) && n in sys.nodes && sys.nodes[n].role != Leader
    ensures Safe(sys, past, n, [], PreCandidacy(sys.nodes[n]), past)
  {
    hide SystemInv, Safe, Inv, ReadOk, PacketsOk;
    EntriesShape(sys, past, n);
    var node := PreCandidacy(sys.nodes[n]);
    var s := Abs(sys, past.h);
    StepDownKeepsInv(s, n, s.peers[n].term);
    PastExtendsReflexive(past);
    NoPackets(sys, past, n, []);
    SameReads(past, past.h);
    PreCandidacyOk(sys.cfg, sys.built, past, n, sys.nodes[n]);
    assert StepDown(s, n, s.peers[n].term) == WithPeer(s, n, PeerOf(node, past.h.logs), past.h);
    Move(sys, past, n, node, past, []);
    Silent(sys, past, n, node, past);
  }

  lemma PreCandidacyOk(cfg: Configuration, built: set<PersistentSnapshot>, past: Past, n: NodeId, node: Node)
    requires NodeOk(cfg, built, past, n, node) && node.role != Leader
    ensures NodeOk(cfg, built, past, n, PreCandidacy(node))
  {
    forall c ensures PendingOk(past, PreCandidacy(node), c) {
      assert PendingOk(past, node, c);
    }
  }

  lemma {:induction false} PlainSends(sys: System, past: Past, n: NodeId, peers: seq<NodeId>, m: Message)
    requires forall p :: PacketOk(sys.cfg, sys.built, past, Packet(n, p, m))
    ensures AllSends(sys, past, n, ToAll(peers, m))
  {
  }

  lemma PreVoteSafe(sys: System, past: Past, n: NodeId) returns (q: Past)
    requires SystemInv(sys, past) && n in sys.nodes && sys.nodes[n].role != Leader
    ensures var o := StartPreVote(sys.nodes[n]); Safe(sys, past, n, o.actions, o.node, q)
  {
    hide SystemInv, Safe, StartElection, ToAll;
    var node := sys.nodes[n];
    PreCandidacySafe(sys, past, n);
    var m := PreCandidacy(node);
    var a := Out(m, []);
    MidInv(sys, past, n, a, past);
    var told := [RoleChanged(PreCandidate, node.Term()), ResetElectionTimer];
    Emit(After(sys, n, [], m), past, n, told);
    Then2(sys, past, n, a, past, Out(m, told), past);
    var b := Out(m, told);
    assert Then(a, b) == b;
    MidInv(sys, past, n, b, past);
    var t := After(sys, n, told, m);
    if m.configuration.Quorum(m.votes) {
      q := ElectionSafe(t, past, n);
      Then2(sys, past, n, b, past, StartElection(m, m.Term() + 1), q);
    } else {
      q := past;
      var msg := PreVoteRequest(m.Term() + 1, m.id, m.log.LastIndex(), m.log.LastTerm());
      Participates(t, past, n);
      PlainSends(t, past, n, m.Peers(), msg);
      EmitSends(t, past, n, ToAll(m.Peers(), msg));
      Then2(sys, past, n, b, past, Out(m, ToAll(m.Peers(), msg)), past);
    }
  }

  lemma Participates(sys: System, past: Past, n: NodeId)
    requires SystemInv(sys, past) && n in sys.nodes
    ensures n in sys.cfg.participants && sys.nodes[n].id == n && sys.nodes[n].configuration == sys.cfg
  {
    hide Inv;
    assert NodeOk(sys.cfg, sys.built, past, n, sys.nodes[n]);
  }

  // ------------------------------------------------------------------ elections

  function Candidacy(n: Node): Node {
    n.(hardState := n.hardState.(currentTerm := n.Term() + 1, votedFor := Some(n.id)),
       role := Candidate, campaignTerm := None, votes := {n.id})
  }

  lemma CandidacyOk(cfg: Configuration, built: set<PersistentSnapshot>, past: Past, n: NodeId, node: Node)
    requires NodeOk(cfg, built, past, n, node) && node.role != Leader
    requires Vote(n, node.Term() + 1, n) in past.h.votes
    ensures NodeOk(cfg, built, past, n, Candidacy(node))
  {
    forall c ensures PendingOk(past, Candidacy(node), c) {
      assert PendingOk(past, node, c);
    }
  }

  lemma CampaignHere(sys: System, past: Past, n: NodeId) returns (h: History)
    requires SystemInv(sys, past) && n in sys.nodes
    ensures Extends(past.h, h) && h.logs == past.h.logs
    ensures Inv(WithPeer(Abs(sys, past.h), n, PeerOf(Candidacy(sys.nodes[n]), h.logs), h))
    ensures Vote(n, sys.nodes[n].Term() + 1, n) in h.votes
    ensures var k := (n, sys.nodes[n].Term() + 1); k in h.campaigns
                                                   && h.campaigns[k] == FullLog(sys.nodes[n].log, past.h.logs)
  {
    hide SystemInv, Inv, Extends, FullLog;
    AbsInv(sys, past);
    Participates(sys, past, n);
    var s := Abs(sys, past.h);
    CampaignKeepsInv(s, n);
    h := Campaign(s, n).h;
  }

  /** A move to a node justified by a new history, with one silent or durable action. */
  lemma MoveTo(sys: System, past: Past, n: NodeId, node: Node, h: History, a: Action)
    requires SystemInv(sys, past) && n in sys.nodes && Extends(past.h, h) && !a.Send?
    requires Inv(WithPeer(Abs(sys, past.h), n, PeerOf(node, h.logs), h))
    requires NodeOk(sys.cfg, sys.built, past.(h := h), n, node) && sys.nodes[n].Term() <= node.Term()
    ensures PastExtends(past, past.(h := h)) && SystemInv(After(sys, n, [a], node), past.(h := h))
  {
    hide SystemInv, Inv, Extends, NodeOk, ReadOk, PacketsOk, Abs, PeerOf, WithPeer;
    SameReads(past, h);
    NoPackets(sys, past.(h := h), n, [a]);
    Move(sys, past, n, node, past.(h := h), [a]);
  }

  lemma CandidacyInv(sys: System, past: Past, n: NodeId, a: Action) returns (q: Past)
    requires n in sys.nodes && sys.nodes[n].role != Leader && !a.Send?
    requires SystemInv(sys, past)
    ensures var node := sys.nodes[n];
            (n, node.Term() + 1) in q.h.campaigns && q.h.campaigns[(n, node.Term() + 1)]
              == FullLog(node.log, past.h.logs)
    ensures PastExtends(past, q) && SystemInv(After(sys, n, [a], Candidacy(sys.nodes[n])), q)
  {
    hide SystemInv, Inv, NodeOk, Extends, Abs, PeerOf, WithPeer, FullLog, PastExtends, After;
    var h := CampaignHere(sys, past, n);
    q := past.(h := h);
    SameReads(past, h);
    NodeFacts(sys, past, n, h);
    NodeOkExtends(sys.cfg, sys.built, past, q, n, sys.nodes[n]);
    CandidacyOk(sys.cfg, sys.built, q, n, sys.nodes[n]);
    MoveTo(sys, past, n, Candidacy(sys.nodes[n]), h, a);
  }

  lemma CandidacySafe(sys: System, past: Past, n: NodeId) returns (q: Past)
    requires n in sys.nodes && sys.nodes[n].role != Leader
    requires SystemInv(sys, past)
    ensures var k := (n, sys.nodes[n].Term() + 1); k in q.h.campaigns
                                                   && q.h.campaigns[k] == FullLog(sys.nodes[n].log, past.h.logs)
    ensures Safe(sys, past, n, [Persist(SetHardState(Candidacy(sys.nodes[n]).hardState))], Candidacy(sys.nodes[n]), q)
  {
    hide SystemInv, Safe, PastExtends, FullLog, StableStore.ValidIndexes, StableStore.Execute, StableStore.Publish;
    var node := Candidacy(sys.nodes[n]);
    var a := Persist(SetHardState(node.hardState));
    q := CandidacyInv(sys, past, n, a);
    HardStateAccepted(sys, past, n, node);
    Durable(sys, past, n, a, node, q);
  }

  /** A hard state that only moves forward passes the store's checks. */
  lemma HardStateAccepted(sys: System, past: Past, n: NodeId, next: Node)
    requires SystemInv(sys, past) && n in sys.nodes
    requires next.Stable() == sys.nodes[n].Stable().(hardState := next.hardState)
    requires StableStore.MonotonicHardState(sys.nodes[n].hardState, next.hardState)
    requires next.hardState.commitIndex == sys.nodes[n].hardState.commitIndex
    ensures StableStore.Execute(sys.nodes[n].Stable(), Persist(SetHardState(next.hardState)))
            == StableStore.Publish(next.Stable())
  {
    hide SystemInv, StableStore.ValidIndexes;
    StableValid(sys, past, n);
    CommitBounded(sys, past, n);
  }

  lemma ElectionSafe(sys: System, past: Past, n: NodeId) returns (q: Past)
    requires SystemInv(sys, past) && n in sys.nodes && sys.nodes[n].role != Leader
    ensures var o := StartElection(sys.nodes[n], sys.nodes[n].Term() + 1); Safe(sys, past, n, o.actions, o.node, q)
  {
    hide SystemInv, Safe, BecomeLeader, ToAll, Inv;
    var node := sys.nodes[n];
    var term := node.Term() + 1;
    var g := CandidacySafe(sys, past, n);
    var m := Candidacy(node);
    var a := Out(m, [Persist(SetHardState(m.hardState))]);
    MidInv(sys, past, n, a, g);
    var told := [RoleChanged(Candidate, term), ResetElectionTimer];
    Emit(After(sys, n, a.actions, m), g, n, told);
    Then2(sys, past, n, a, g, Out(m, told), g);
    var b := Then(a, Out(m, told));
    assert b == Out(m, [Persist(SetHardState(m.hardState)), RoleChanged(Candidate, term), ResetElectionTimer]);
    MidInv(sys, past, n, b, g);
    var t := After(sys, n, b.actions, m);
    Participates(t, g, n);
    if m.configuration.Quorum(m.votes) {
      q := LeaderSafe(t, g, n);
      Then2(sys, past, n, b, g, BecomeLeader(m), q);
    } else {
      q := g;
      var msg := RequestVote(term, m.id, m.log.LastIndex(), m.log.LastTerm());
      LogEnds(sys, past, n);
      PlainSends(t, g, n, m.Peers(), msg);
      EmitSends(t, g, n, ToAll(m.Peers(), msg));
      Then2(sys, past, n, b, g, Out(m, ToAll(m.Peers(), msg)), g);
    }
  }

  lemma LogEnds(sys: System, past: Past, n: NodeId)
    requires SystemInv(sys, past) && n in sys.nodes
    ensures var full := FullLog(sys.nodes[n].log, past.h.logs);
            sys.nodes[n].log.LastIndex() == |full| && sys.nodes[n].log.LastTerm() == LastTerm(full)
  {
    hide Inv;
    EntriesShape(sys, past, n);
  }

  // ----------------------------------------------------------------- leadership

  function FirstEntry(n: Node): LogEntry {
    LogEntry(n.log.LastIndex() + 1, n.Term(), Noop)
  }

  function Leadership(n: Node): Node {
    n.(role := Leader, leaderId := Some(n.id), votes := {}, pendingReads := map[],
       log := n.log.Append([FirstEntry(n)]), progress := InitialProgress(n, FirstEntry(n).index),
       recentActive := n.configuration.participants)
  }

  lemma LeadershipOk(cfg: Configuration, built: set<PersistentSnapshot>, past: Past, n: NodeId, node: Node)
    requires NodeOk(cfg, built, past, n, node)
    requires Through(n, node.Term(), FirstEntry(node).index) <= past.h.acks
    ensures NodeOk(cfg, built, past, n, Leadership(node))
  {
    forall v ensures ProgressOk(past, Leadership(node), v) {}
    forall c ensures PendingOk(past, Leadership(node), c) {}
  }

  /** Appending one entry of the current term passes the store's checks. */
  lemma AppendAccepted(sys: System, past: Past, n: NodeId, e: LogEntry, next: Node)
    requires SystemInv(sys, past) && n in sys.nodes
    requires e.index == sys.nodes[n].log.LastIndex() + 1 && e.term == sys.nodes[n].Term()
    requires next.Stable() == sys.nodes[n].(log := sys.nodes[n].log.Append([e])).Stable()
    ensures StableStore.Execute(sys.nodes[n].Stable(), Persist(Append([e]))) == StableStore.Publish(next.Stable())
  {
    hide SystemInv, StableStore.ValidIndexes;
    StableValid(sys, past, n);
    CommitBounded(sys, past, n);
    var s := sys.nodes[n].Stable();
    assert StableStore.ValidSequence([e][1..], e.index + 1, e.term);
    assert StableStore.ValidEntrySequence(s, [e]);
  }

  lemma ElectHere(sys: System, past: Past, n: NodeId) returns (h: History)
    requires SystemInv(sys, past) && n in sys.nodes && sys.nodes[n].role == Candidate
    requires sys.cfg.Quorum(sys.nodes[n].votes)
    ensures Extends(past.h, h)
    ensures Inv(WithPeer(Abs(sys, past.h), n, PeerOf(Leadership(sys.nodes[n]), h.logs), h))
    ensures Through(n, sys.nodes[n].Term(), FirstEntry(sys.nodes[n]).index) <= h.acks
    ensures sys.nodes[n].Term() in h.leaders && h.leaders[sys.nodes[n].Term()] == n
  {
    hide SystemInv, Inv, Extends, FullLog, BaseOk, NodeOk, Voters, LogView.LastIndex, LogView.LastTerm, LogView.Append;
    AbsInv(sys, past);
    var node := sys.nodes[n];
    var s := Abs(sys, past.h);
    ElectorsVoted(sys, past, n);
    var e := FirstEntry(node);
    LogEnds(sys, past, n);
    ElectKeepsInv(s, n, e);
    h := Elect(s, n, e).h;
    NodeFacts(sys, past, n, h);
    FullLogExtends(node.log, past.h, h);
    AppendFull(node.log, h.logs, e);
  }

  lemma ElectedInv(sys: System, past: Past, n: NodeId, a: Action) returns (q: Past)
    requires SystemInv(sys, past) && n in sys.nodes && sys.nodes[n].role == Candidate && !a.Send?
    requires sys.cfg.Quorum(sys.nodes[n].votes)
    ensures PastExtends(past, q) && SystemInv(After(sys, n, [a], Leadership(sys.nodes[n])), q)
    ensures sys.nodes[n].Term() in q.h.leaders && q.h.leaders[sys.nodes[n].Term()] == n
  {
    hide SystemInv, Inv, NodeOk, Extends, Abs, PeerOf, WithPeer, PastExtends, After, FirstEntry, Through;
    var h := ElectHere(sys, past, n);
    q := past.(h := h);
    SameReads(past, h);
    NodeFacts(sys, past, n, h);
    NodeOkExtends(sys.cfg, sys.built, past, q, n, sys.nodes[n]);
    LeadershipOk(sys.cfg, sys.built, q, n, sys.nodes[n]);
    MoveTo(sys, past, n, Leadership(sys.nodes[n]), h, a);
  }

  lemma AppendFull(log: LogView, logs: map<nat, Log>, e: LogEntry)
    ensures FullLog(log.Append([e]), logs) == FullLog(log, logs) + [e]
  {
  }

  lemma ElectorsVoted(sys: System, past: Past, n: NodeId)
    requires SystemInv(sys, past) && n in sys.nodes && sys.nodes[n].role == Candidate
    requires sys.cfg.Quorum(sys.nodes[n].votes)
    ensures sys.cfg.Quorum(Voters(past.h.votes, sys.nodes[n].Term(), n))
  {
    hide Inv;
    EntriesShape(sys, past, n);
    QuorumMonotone(sys.cfg, sys.nodes[n].votes, Voters(past.h.votes, sys.nodes[n].Term(), n));
  }

  lemma LeaderSafe(sys: System, past: Past, n: NodeId) returns (q: Past)
    requires SystemInv(sys, past) && n in sys.nodes && sys.nodes[n].role == Candidate
    requires sys.cfg.Quorum(sys.nodes[n].votes)
    ensures var o := BecomeLeader(sys.nodes[n]); Safe(sys, past, n, o.actions, o.node, q)
  {
    hide SystemInv, Safe, Inv, AdvanceLeaderCommit, Broadcast, PastExtends, StableStore.Execute, StableStore.Publish,
         StableStore.ValidIndexes;
    var node := sys.nodes[n];
    var e := FirstEntry(node);
    var a := Persist(Append([e]));
    var g := ElectedInv(sys, past, n, a);
    var m := Leadership(node);
    AppendAccepted(sys, past, n, e, m);
    Durable(sys, past, n, a, m, g);
    var first := Out(m, [a]);
    MidInv(sys, past, n, first, g);
    var told := [RoleChanged(Leader, node.Term()), ResetHeartbeatTimer];
    Emit(After(sys, n, [a], m), g, n, told);
    Then2(sys, past, n, first, g, Out(m, told), g);
    var begun := Then(first, Out(m, told));
    MidInv(sys, past, n, begun, g);
    q := AdvanceAndSend(After(sys, n, begun.actions, m), g, n, true, n);
    var o := AdvanceLeaderCommit(m);
    var rest := Then(o, Out(o.node, Broadcast(o.node, o.node.Peers(), None)));
    Then2(sys, past, n, begun, g, rest, q);
    assert BecomeLeader(node) == Then(begun, rest);
  }

  // ---------------------------------------------------------------------- votes

  lemma OnPreVoteResponseSafe(sys: System, past: Past, n: NodeId, from: NodeId, rt: nat, pt: nat, granted: bool)
    returns (q: Past)
    requires SystemInv(sys, past) && n in sys.nodes
    ensures var o := OnPreVoteResponse(sys.nodes[n], from, rt, pt, granted); Safe(sys, past, n, o.actions, o.node, q)
  {
    hide SystemInv, Safe, NodeOk, StartElection, BecomeFollower;
    var node := sys.nodes[n];
    q := past;
    if rt > node.Term() {
      FollowThen(sys, past, n, rt, None, [ResetElectionTimer]);
    } else if node.role != PreCandidate || node.campaignTerm != Some(pt) || !granted {
      EmitNothing(sys, past, n);
    } else {
      var m := node.(votes := node.votes + {from});
      PreCandidateTally(sys, past, n, from);
      VolatileSafe(sys, past, n, m);
      if m.configuration.Quorum(m.votes) {
        var a := Out(m, []);
        MidInv(sys, past, n, a, past);
        q := ElectionSafe(After(sys, n, [], m), past, n);
        Then2(sys, past, n, a, past, StartElection(m, pt), q);
        assert Then(a, StartElection(m, pt)) == StartElection(m, pt);
      }
    }
  }

  lemma PreCandidateTally(sys: System, past: Past, n: NodeId, from: NodeId)
    requires SystemInv(sys, past) && n in sys.nodes && sys.nodes[n].role == PreCandidate
    ensures sys.nodes[n].campaignTerm == Some(sys.nodes[n].Term() + 1)
    ensures NodeOk(sys.cfg, sys.built, past, n, sys.nodes[n].(votes := sys.nodes[n].votes + {from}))
  {
    hide Inv, SystemInv, LogInv, Describes;
    EntriesShape(sys, past, n);
    var node := sys.nodes[n].(votes := sys.nodes[n].votes + {from});
    forall c ensures PendingOk(past, node, c) {
      assert PendingOk(past, sys.nodes[n], c);
    }
  }

  lemma CandidateTally(sys: System, past: Past, n: NodeId, from: NodeId)
    requires SystemInv(sys, past) && n in sys.nodes && sys.nodes[n].role == Candidate
    requires Vote(from, sys.nodes[n].Term(), n) in past.h.votes
    ensures NodeOk(sys.cfg, sys.built, past, n, sys.nodes[n].(votes := sys.nodes[n].votes + {from}))
    ensures sys.nodes[n].configuration == sys.cfg
  {
    hide Inv, SystemInv, LogInv, Describes;
    EntriesShape(sys, past, n);
    var node := sys.nodes[n].(votes := sys.nodes[n].votes + {from});
    forall c ensures PendingOk(past, node, c) {
      assert PendingOk(past, sys.nodes[n], c);
    }
  }

  lemma OnVoteResponseSafe(sys: System, past: Past, n: NodeId, from: NodeId, term: nat, granted: bool) returns (q: Past)
    requires SystemInv(sys, past) && n in sys.nodes
    requires granted ==> Vote(from, term, n) in past.h.votes
    ensures var o := OnVoteResponse(sys.nodes[n], from, term, granted); Safe(sys, past, n, o.actions, o.node, q)
  {
    hide SystemInv, Safe, NodeOk, BecomeLeader, BecomeFollower;
    var node := sys.nodes[n];
    q := past;
    if term > node.Term() {
      FollowThen(sys, past, n, term, None, [ResetElectionTimer]);
    } else if node.role != Candidate || term != node.Term() || !granted {
      EmitNothing(sys, past, n);
    } else {
      var m := node.(votes := node.votes + {from});
      CandidateTally(sys, past, n, from);
      VolatileSafe(sys, past, n, m);
      if m.configuration.Quorum(m.votes) {
        var a := Out(m, []);
        MidInv(sys, past, n, a, past);
        q := LeaderSafe(After(sys, n, [], m), past, n);
        Then2(sys, past, n, a, past, BecomeLeader(m), q);
        assert Then(a, BecomeLeader(m)) == BecomeLeader(m);
      }
    }
  }

  lemma OnPreVoteRequestSafe(sys: System, past: Past, n: NodeId, from: NodeId, pt: nat, c: NodeId, li: nat, lt: nat)
    requires SystemInv(sys, past) && n in sys.nodes
    ensures var o := OnPreVoteRequest(sys.nodes[n], from, pt, c, li, lt); Safe(sys, past, n, o.actions, o.node, past)
  {
    hide SystemInv, Safe;
    Participates(sys, past, n);
    var o := OnPreVoteRequest(sys.nodes[n], from, pt, c, li, lt);
    EmitSends(sys, past, n, o.actions);
  }

  /** What a delivered vote request says about its candidate's log. */
  ghost predicate KnownCandidate(past: Past, c: NodeId, term: nat, li: nat, lt: nat) {
    (c, term) in past.h.campaigns && li == |past.h.campaigns[(c, term)]| && lt == LastTerm(past.h.campaigns[(c, term)])
  }

  function Voted(n: Node, c: NodeId): Node {
    n.(hardState := n.hardState.(votedFor := Some(c)), leaderId := None)
  }

  lemma GrantHere(sys: System, past: Past, n: NodeId, c: NodeId, li: nat, lt: nat) returns (h: History)
    requires SystemInv(sys, past) && n in sys.nodes && KnownCandidate(past, c, sys.nodes[n].Term(), li, lt)
    requires sys.nodes[n].hardState.votedFor in {None, Some(c)} && sys.nodes[n].CandidateIsUpToDate(li, lt)
    ensures Extends(past.h, h) && h.logs == past.h.logs
    ensures Inv(WithPeer(Abs(sys, past.h), n, PeerOf(Voted(sys.nodes[n], c), h.logs), h))
    ensures Vote(n, sys.nodes[n].Term(), c) in h.votes
  {
    hide SystemInv, Inv, Extends, FullLog, LogView.LastIndex, LogView.LastTerm, LastTerm;
    AbsInv(sys, past);
    LogEnds(sys, past, n);
    var s := Abs(sys, past.h);
    GrantKeepsInv(s, n, c);
    h := Grant(s, n, c).h;
  }

  lemma VotedOk(cfg: Configuration, built: set<PersistentSnapshot>, past: Past, n: NodeId, node: Node, c: NodeId)
    requires NodeOk(cfg, built, past, n, node)
    ensures NodeOk(cfg, built, past, n, Voted(node, c))
  {
    var next := Voted(node, c);
    if node.role == Leader {
      forall v ensures ProgressOk(past, next, v) {
        assert ProgressOk(past, node, v);
      }
    }
    forall x ensures PendingOk(past, next, x) {
      assert PendingOk(past, node, x);
    }
  }

  lemma VotedInv(sys: System, past: Past, n: NodeId, c: NodeId, li: nat, lt: nat, a: Action) returns (q: Past)
    requires SystemInv(sys, past) && n in sys.nodes && KnownCandidate(past, c, sys.nodes[n].Term(), li, lt) && !a.Send?
    requires sys.nodes[n].hardState.votedFor in {None, Some(c)} && sys.nodes[n].CandidateIsUpToDate(li, lt)
    ensures PastExtends(past, q) && SystemInv(After(sys, n, [a], Voted(sys.nodes[n], c)), q)
    ensures Vote(n, sys.nodes[n].Term(), c) in q.h.votes
  {
    hide SystemInv, Inv, NodeOk, Extends, Abs, PeerOf, WithPeer, PastExtends, After, KnownCandidate;
    var h := GrantHere(sys, past, n, c, li, lt);
    q := past.(h := h);
    SameReads(past, h);
    NodeFacts(sys, past, n, h);
    NodeOkExtends(sys.cfg, sys.built, past, q, n, sys.nodes[n]);
    VotedOk(sys.cfg, sys.built, q, n, sys.nodes[n], c);
    MoveTo(sys, past, n, Voted(sys.nodes[n], c), h, a);
  }

  lemma VoteSafe(sys: System, past: Past, n: NodeId, c: NodeId, li: nat, lt: nat) returns (q: Past)
    requires SystemInv(sys, past) && n in sys.nodes && KnownCandidate(past, c, sys.nodes[n].Term(), li, lt)
    requires sys.nodes[n].hardState.votedFor in {None, Some(c)} && sys.nodes[n].CandidateIsUpToDate(li, lt)
    ensures var m := Voted(sys.nodes[n], c);
            Safe(sys, past, n, (if sys.nodes[n].hardState.votedFor == Some(c) then []
                                else [Persist(SetHardState(m.hardState))])
                               + [ResetElectionTimer], m, q)
    ensures Vote(n, sys.nodes[n].Term(), c) in q.h.votes
  {
    hide SystemInv, Safe, PastExtends, KnownCandidate, StableStore.ValidIndexes, StableStore.Execute,
         StableStore.Publish;
    var node := sys.nodes[n];
    var m := Voted(node, c);
    if node.hardState.votedFor == Some(c) {
      q := VotedInv(sys, past, n, c, li, lt, ResetElectionTimer);
      SingleVolatile(sys, past, n, ResetElectionTimer, m, q);
      assert [] + [ResetElectionTimer] == [ResetElectionTimer];
    } else {
      var a := Persist(SetHardState(m.hardState));
      q := VotedInv(sys, past, n, c, li, lt, a);
      HardStateAccepted(sys, past, n, m);
      Durable(sys, past, n, a, m, q);
      var first := Out(m, [a]);
      MidInv(sys, past, n, first, q);
      Emit(After(sys, n, [a], m), q, n, [ResetElectionTimer]);
      Then2(sys, past, n, first, q, Out(m, [ResetElectionTimer]), q);
    }
  }

  lemma SingleVolatile(sys: System, past: Past, n: NodeId, a: Action, node: Node, q: Past)
    requires SystemInv(sys, past) && n in sys.nodes && PastExtends(past, q) && Quiet(a) && ActionOk(q, n, a)
    requires node.Stable() == sys.nodes[n].Stable()
    requires SystemInv(After(sys, n, [a], node), q)
    ensures Safe(sys, past, n, [a], node, q)
  {
    hide SystemInv, PastExtends, ActionOk, Safe;
    Single(sys, past, n, a, node, q);
  }

  lemma AnswerVoteSafe(sys: System, past: Past, n: NodeId, term: nat, c: NodeId, li: nat, lt: nat) returns (q: Past)
    requires SystemInv(sys, past) && n in sys.nodes && KnownCandidate(past, c, term, li, lt)
    ensures var o := AnswerVote(sys.nodes[n], term, c, li, lt); Safe(sys, past, n, o.actions, o.node, q)
  {
    hide SystemInv, Safe, KnownCandidate;
    var node := sys.nodes[n];
    Participates(sys, past, n);
    if term == node.Term() && node.hardState.votedFor in {None, Some(c)} && node.CandidateIsUpToDate(li, lt) {
      q := VoteSafe(sys, past, n, c, li, lt);
      var m := Voted(node, c);
      var first := Out(m, (if node.hardState.votedFor == Some(c) then [] else [Persist(SetHardState(m.hardState))])
                       + [ResetElectionTimer]);
      MidInv(sys, past, n, first, q);
      var reply := [Send(c, RequestVoteResponse(term, true))];
      EmitSends(After(sys, n, first.actions, m), q, n, reply);
      Then2(sys, past, n, first, q, Out(m, reply), q);
      assert AnswerVote(node, term, c, li, lt) == Then(first, Out(m, reply));
    } else {
      q := past;
      EmitSends(sys, past, n, [Send(c, RequestVoteResponse(node.Term(), false))]);
    }
  }

  lemma OnVoteRequestSafe(sys: System, past: Past, n: NodeId, from: NodeId, term: nat, c: NodeId, li: nat, lt: nat)
    returns (q: Past)
    requires SystemInv(sys, past) && n in sys.nodes && KnownCandidate(past, c, term, li, lt)
    ensures var o := OnVoteRequest(sys.nodes[n], from, term, c, li, lt); Safe(sys, past, n, o.actions, o.node, q)
  {
    hide SystemInv, Safe, KnownCandidate, BecomeFollower, AnswerVote;
    var node := sys.nodes[n];
    if c != from {
      q := past;
      EmitNothing(sys, past, n);
    } else {
      var f := if term > node.Term() then BecomeFollower(node, term, None) else Out(node, []);
      if term > node.Term() {
        FollowSafe(sys, past, n, term, None);
      } else {
        EmitNothing(sys, past, n);
      }
      MidInv(sys, past, n, f, past);
      q := AnswerVoteSafe(After(sys, n, f.actions, f.node), past, n, term, c, li, lt);
      Then2(sys, past, n, f, past, AnswerVote(f.node, term, c, li, lt), q);
    }
  }
}
