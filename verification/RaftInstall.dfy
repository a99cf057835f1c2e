/** Snapshots: building, receiving and installing them keeps the cluster
    invariant at every prefix, and only built snapshots are ever installed. */
module RaftInstall {
  import opened Wrappers
  import opened Ordering
  import opened RaftTypes
  import opened RaftLog
  import opened RaftNode
  import opened RaftSafety
  import opened RaftCluster
  import opened RaftMoves
  import opened RaftElections
  import opened RaftVotes
  import opened RaftReplication
  import opened RaftLeading
  import StableStore

  // ----------------------------------------------------------------- responses

  lemma OnSnapshotResponseSafe(sys: System, past: Past, n: NodeId, from: NodeId, m: Message) returns (q: Past)
    requires n in sys.nodes && m.InstallSnapshotResponse?
    requires SystemInv(sys, past)
    requires m.accepted && m.done ==> Holds(past.h, from, m.term, m.matchIndex)
    ensures var o := OnSnapshotResponse(sys.nodes[n], from, m); Safe(sys, past, n, o.actions, o.node, q)
  {
    hide SystemInv, Safe, Through, AdvanceLeaderCommit, SendAppend, BecomeFollower, ProgressOk, Bookkeeping;
    var node := sys.nodes[n];
    q := past;
    if m.term > node.Term() {
      FollowThen(sys, past, n, m.term, None, [ResetElectionTimer]);
    } else if node.role != Leader || m.term != node.Term() {
      EmitNothing(sys, past, n);
    } else {
      LeaderProgress(sys, past, n);
      var active := node.(recentActive := node.recentActive + {from});
      ActiveOk(past, node, active.recentActive);
      BookkeepingSafe(sys, past, n, active);
      var a := Out(active, []);
      MidInv(sys, past, n, a, past);
      if from in active.progress {
        q := ProgressReported(After(sys, n, [], active), past, n, from, m);
        var o := OnSnapshotResponse(node, from, m);
        Then2(sys, past, n, a, past, o, q);
        assert [] + o.actions == o.actions;
      }
    }
  }

  lemma ProgressReported(sys: System, past: Past, n: NodeId, from: NodeId, m: Message) returns (q: Past)
    requires n in sys.nodes && m.InstallSnapshotResponse? && sys.nodes[n].role == Leader
    requires from in sys.nodes[n].recentActive && from in sys.nodes[n].progress && m.term == sys.nodes[n].Term()
    requires SystemInv(sys, past)
    requires m.accepted && m.done ==> Holds(past.h, from, m.term, m.matchIndex)
    ensures var o := OnSnapshotResponse(sys.nodes[n], from, m); Safe(sys, past, n, o.actions, o.node, q)
  {
    hide SystemInv, Safe, Through, AdvanceLeaderCommit, SendAppend, BecomeFollower, ProgressOk, Bookkeeping;
    var node := sys.nodes[n];
    LeaderProgress(sys, past, n);
    assert node.(recentActive := node.recentActive + {from}) == node by {
      assert node.recentActive + {from} == node.recentActive;
    }
    assert ProgressOk(past, node, from);
    if m.done && m.accepted {
      RaisedSafe(sys, past, n, from, m.matchIndex);
      var p := node.(progress := node.progress[from := Raised(node.progress[from], m.matchIndex)]);
      var a := Out(p, []);
      MidInv(sys, past, n, a, past);
      q := AdvanceAndSend(After(sys, n, [], p), past, n, false, from);
      var o := OnSnapshotResponse(node, from, m);
      Then2(sys, past, n, a, past, o, q);
      assert [] + o.actions == o.actions;
    } else {
      q := past;
      ProgressPositive(past, node, from);
      LoweredSafe(sys, past, n, from,
                  node.progress[from].(snapshotOffset := Some(if m.accepted then m.nextOffset else 0)));
    }
  }

  lemma ProgressPositive(past: Past, node: Node, v: NodeId)
    requires ProgressOk(past, node, v) && v in node.progress
    ensures node.progress[v].nextIndex >= 1
  {
  }

  // ------------------------------------------------------------------ compaction

  function Compacted(node: Node, s: PersistentSnapshot): Node {
    node.(log := node.log.Compact(s.metadata.lastIncludedIndex, s.metadata.lastIncludedTerm, true), snapshot := Some(s))
  }

  /** The snapshot stands for a prefix of what the node has applied. */
  predicate Compactable(node: Node, s: PersistentSnapshot) {
    && s.Validate() && Usable(s) && s.metadata.configuration == node.configuration
    && node.log.baseIndex <= s.metadata.lastIncludedIndex <= node.appliedIndex
    && node.log.Term(s.metadata.lastIncludedIndex) == Some(s.metadata.lastIncludedTerm)
  }

  /** The entry at `i` names a leader whose log agrees through `i`. */
  lemma BaseAt(full: Log, h: History, i: nat)
    requires LogInv(full, h) && 0 < i <= |full|
    ensures var t := TermAt(full, i);
            t in h.logs && Agree(full, h.logs[t], i) && TermAt(h.logs[t], i) == t
  {
    assert MatchAt(full, h, i - 1);
  }

  /** Replacing a prefix by its snapshot leaves the full log alone. */
  lemma CompactFull(node: Node, full: Log, h: History, i: nat, term: nat)
    requires Describes(full, node) && full == FullLog(node.log, h.logs) && LogInv(full, h)
    requires node.log.baseIndex <= i <= |full| && 0 < i && node.log.Term(i) == Some(term)
    ensures FullLog(node.log.Compact(i, term, true), h.logs) == full
    ensures BaseOk(node.log.Compact(i, term, true), h.logs)
    ensures |node.log.EntriesAfter(i)| == |full| - i
  {
    hide Describes, FullLog, Agree, LogInv, LogView.EntriesAfter, LogView.Term;
    FullLength(node, full);
    TermLookup(node, full, i);
    BaseAt(full, h, i);
    AgreeLength(full, h.logs[term], i);
    CutAt(node.log, h.logs, i, term);
  }

  lemma AgreeLength(a: Log, b: Log, i: nat)
    requires Agree(a, b, i)
    ensures i <= |a| && i <= |b|
  {
  }

  lemma CutAt(log: LogView, logs: map<nat, Log>, i: nat, term: nat)
    requires |FullLog(log, logs)| == log.baseIndex + |log.entries|
    requires log.baseIndex <= i <= log.baseIndex + |log.entries|
    requires term in logs && Agree(FullLog(log, logs), logs[term], i)
    ensures FullLog(log.Compact(i, term, true), logs) == FullLog(log, logs)
    ensures |log.EntriesAfter(i)| == log.baseIndex + |log.entries| - i
  {
    var full := FullLog(log, logs);
    assert full[..i] == logs[term][..i];
    assert full[i..] == log.EntriesAfter(i);
    assert full == full[..i] + full[i..];
  }

  lemma CompactedOk(cfg: Configuration, built: set<PersistentSnapshot>, past: Past, n: NodeId, node: Node,
                    s: PersistentSnapshot)
    requires NodeOk(cfg, built, past, n, node) && Compactable(node, s) && s in built
    requires BaseOk(Compacted(node, s).log, past.h.logs)
    requires |node.log.EntriesAfter(s.metadata.lastIncludedIndex)|
             == node.log.baseIndex + |node.log.entries| - s.metadata.lastIncludedIndex
    ensures NodeOk(cfg, built, past, n, Compacted(node, s))
  {
    hide BaseOk, LogView.Term;
    var next := Compacted(node, s);
    if node.role == Leader {
      forall v ensures ProgressOk(past, next, v) {
        assert ProgressOk(past, node, v);
      }
    }
    forall c ensures PendingOk(past, next, c) {
      assert PendingOk(past, node, c);
    }
  }

  lemma CompactAccepted(node: Node, s: PersistentSnapshot)
    requires Compactable(node, s)
    requires StableStore.LastIndex(node.Stable()) == node.log.LastIndex() == node.log.baseIndex + |node.log.entries|
    requires StableStore.BaseIndex(node.Stable()) == node.log.baseIndex
    requires StableStore.BaseTerm(node.Stable()) == node.log.baseTerm
    ensures StableStore.Execute(node.Stable(), Persist(CompactSnapshot(s, Compacted(node, s).log.entries)))
            == StableStore.Publish(Compacted(node, s).Stable())
  {
    hide StableStore.ValidIndexes, StableStore.Publish, PersistentSnapshot.Validate;
  }

  lemma CompactShape(sys: System, past: Past, n: NodeId, s: PersistentSnapshot)
    requires n in sys.nodes && Compactable(sys.nodes[n], s)
    requires SystemInv(sys, past) && s in sys.built
    ensures NodeOk(sys.cfg, sys.built, past, n, Compacted(sys.nodes[n], s))
    ensures FullLog(Compacted(sys.nodes[n], s).log, past.h.logs) == FullLog(sys.nodes[n].log, past.h.logs)
  {
    hide SystemInv, Inv, NodeOk, Describes, LogInv, FullLog, Agree, PersistentSnapshot.Validate, LogView.Term,
         LogView.EntriesAfter, BaseOk;
    var node := sys.nodes[n];
    EntriesShape(sys, past, n);
    BaseBelowCommit(sys, past, n);
    CommitBounded(sys, past, n);
    var full := FullLog(node.log, past.h.logs);
    FullLength(node, full);
    CompactFull(node, full, past.h, s.metadata.lastIncludedIndex, s.metadata.lastIncludedTerm);
    CompactedOk(sys.cfg, sys.built, past, n, node, s);
  }

  lemma CompactInv(sys: System, past: Past, n: NodeId, s: PersistentSnapshot, a: Action)
    requires n in sys.nodes && Compactable(sys.nodes[n], s) && !a.Send?
    requires SystemInv(sys, past) && s in sys.built
    ensures PastExtends(past, past) && SystemInv(After(sys, n, [a], Compacted(sys.nodes[n], s)), past)
  {
    hide SystemInv, NodeOk, FullLog, PastExtends, PersistentSnapshot.Validate, PacketsOk, LogView.Term,
         LogView.EntriesAfter;
    CompactShape(sys, past, n, s);
    PastExtendsReflexive(past);
    NoPackets(sys, past, n, [a]);
    SamePeer(sys, past, n, Compacted(sys.nodes[n], s), [a]);
  }

  lemma OnSnapshotBuiltSafe(sys: System, past: Past, n: NodeId, s: PersistentSnapshot)
    requires n in sys.nodes && Usable(s)
    requires SystemInv(sys, past) && s in sys.built
    ensures var o := OnSnapshotBuilt(sys.nodes[n], s); Safe(sys, past, n, o.actions, o.node, past)
  {
    hide SystemInv, Safe, PastExtends, StableStore.Execute, StableStore.Publish, StableStore.ValidIndexes,
         PersistentSnapshot.Validate, LogView.Term, LogView.LastIndex;
    var node := sys.nodes[n];
    if Compactable(node, s) {
      var a := Persist(CompactSnapshot(s, Compacted(node, s).log.entries));
      CompactInv(sys, past, n, s, a);
      StableValid(sys, past, n);
      ExtendsReflexive(past.h);
      NodeFacts(sys, past, n, past.h);
      CompactAccepted(node, s);
      Durable(sys, past, n, a, Compacted(node, s), past);
    } else {
      Emit(sys, past, n, [SnapshotRejected]);
    }
  }

  // ------------------------------------------------------------------- receiving

  /** A delivered chunk speaks for a snapshot that some node built. */
  ghost predicate Shipped(built: set<PersistentSnapshot>, past: Past, from: NodeId, m: Message) {
    && m.InstallSnapshot?
    && m.term in past.h.logs && m.term in past.h.leaders && past.h.leaders[m.term] == m.leaderId == from
    && m.term in past.h.reach && m.metadata.lastIncludedIndex <= past.h.reach[m.term]
    && m.metadata.lastIncludedIndex <= |past.h.logs[m.term]|
    && (past.h.covering ==> Committed(past.h, past.h.logs[m.term], m.metadata.lastIncludedIndex, m.term))
    && m.metadata.lastIncludedTerm == TermAt(past.h.logs[m.term], m.metadata.lastIncludedIndex)
    && exists s :: s in built && s.metadata == m.metadata && s.Validate() && Usable(s)
  }

  lemma ReplySafe(sys: System, past: Past, n: NodeId, to: NodeId, accepted: bool, offset: nat, done: bool, i: nat)
    requires n in sys.nodes
    requires SystemInv(sys, past) && (accepted && done ==> Holds(past.h, n, sys.nodes[n].Term(), i))
    ensures Safe(sys, past, n, SnapshotReply(sys.nodes[n], to, accepted, offset, done, i), sys.nodes[n], past)
  {
    hide SystemInv, Safe, Holds;
    Participates(sys, past, n);
    EmitSends(sys, past, n, SnapshotReply(sys.nodes[n], to, accepted, offset, done, i));
  }

  /** The node has applied as much as the snapshot stands for, which is no more than
      its leader had committed anyway. */
  lemma AlreadySafe(sys: System, past: Past, n: NodeId, from: NodeId, m: Message)
    requires n in sys.nodes && m.InstallSnapshot?
    requires SystemInv(sys, past) && Shipped(sys.built, past, from, m) && sys.nodes[n].Term() == m.term
    ensures Safe(sys, past, n,
                 SnapshotReply(sys.nodes[n], from, true, m.metadata.byteLen, true, m.metadata.lastIncludedIndex),
                 sys.nodes[n], past)
  {
    hide SystemInv, Safe, SnapshotReply;
    ReplySafe(sys, past, n, from, true, m.metadata.byteLen, true, m.metadata.lastIncludedIndex);
  }

  // ------------------------------------------------------------------ installing

  function Installed(n: Node, s: PersistentSnapshot): Node {
    InstallReceivedSnapshot(n, 0, s).node
  }

  /** What install means for the abstract peer. */
  lemma InstallHere(sys: System, past: Past, n: NodeId, from: NodeId, m: Message, s: PersistentSnapshot)
    returns (h: History)
    requires n in sys.nodes && m.InstallSnapshot? && s.metadata == m.metadata
    requires SystemInv(sys, past) && Shipped(sys.built, past, from, m)
    requires sys.nodes[n].Term() == m.term && sys.nodes[n].role == Follower
    requires sys.nodes[n].hardState.commitIndex < m.metadata.lastIncludedIndex
    ensures Extends(past.h, h) && h.logs == past.h.logs
    ensures Through(n, m.term, m.metadata.lastIncludedIndex) <= h.acks
    ensures Inv(WithPeer(Abs(sys, past.h), n, PeerOf(Installed(sys.nodes[n], s), h.logs), h))
  {
    hide SystemInv, Inv, NodeOk, Extends, Shipped, Describes, LogInv, FullLog, LogView.Term, Agree, Through;
    var st := Abs(sys, past.h);
    var node := sys.nodes[n];
    var full := FullLog(node.log, past.h.logs);
    var i := m.metadata.lastIncludedIndex;
    ShippedFacts(sys, past, from, m);
    EntriesShape(sys, past, n);
    BaseBelowCommit(sys, past, n);
    if node.log.Term(i) == Some(m.metadata.lastIncludedTerm) {
      HeldAgrees(node, full, past, m, i);
      RetainedFull(sys, past, n, from, m);
      h := HoldAndLearn(st, n, i);
    } else {
      LackedDisagrees(node, full, past, m, i);
      ReplacedFull(past, m);
      h := AdoptAndLearn(st, n, i);
    }
  }

  lemma ShippedFacts(sys: System, past: Past, from: NodeId, m: Message)
    requires SystemInv(sys, past) && Shipped(sys.built, past, from, m)
    ensures m.term in past.h.logs && LogInv(past.h.logs[m.term], past.h)
    ensures m.metadata.lastIncludedIndex <= |past.h.logs[m.term]|
    ensures m.term in past.h.reach && m.metadata.lastIncludedIndex <= past.h.reach[m.term]
    ensures m.metadata.lastIncludedTerm == TermAt(past.h.logs[m.term], m.metadata.lastIncludedIndex)
    ensures past.h.covering ==> Committed(past.h, past.h.logs[m.term], m.metadata.lastIncludedIndex, m.term)
  {
    hide SystemInv, Inv;
    AbsInv(sys, past);
    LeaderLog(Abs(sys, past.h), m.term);
  }

  lemma HeldAgrees(node: Node, full: Log, past: Past, m: Message, i: nat)
    requires m.InstallSnapshot? && m.term in past.h.logs && i == m.metadata.lastIncludedIndex <= |past.h.logs[m.term]|
    requires Describes(full, node) && LogInv(full, past.h) && LogInv(past.h.logs[m.term], past.h)
    requires node.log.baseIndex < i && node.log.Term(i) == Some(TermAt(past.h.logs[m.term], i))
    ensures Agree(full, past.h.logs[m.term], i)
  {
    TermLookup(node, full, i);
    LogMatching(full, past.h.logs[m.term], past.h, i - 1);
  }

  lemma LackedDisagrees(node: Node, full: Log, past: Past, m: Message, i: nat)
    requires m.InstallSnapshot? && m.term in past.h.logs && i == m.metadata.lastIncludedIndex <= |past.h.logs[m.term]|
    requires Describes(full, node)
    requires node.log.baseIndex < i && node.log.Term(i) != Some(TermAt(past.h.logs[m.term], i))
    ensures !Agree(full, past.h.logs[m.term], i)
  {
    TermLookup(node, full, i);
  }

  lemma RetainedFull(sys: System, past: Past, n: NodeId, from: NodeId, m: Message)
    requires n in sys.nodes && m.InstallSnapshot?
    requires SystemInv(sys, past) && Shipped(sys.built, past, from, m)
    requires var node, i := sys.nodes[n], m.metadata.lastIncludedIndex;
             node.appliedIndex < i && node.log.Term(i) == Some(m.metadata.lastIncludedTerm)
    ensures var node, i := sys.nodes[n], m.metadata.lastIncludedIndex;
            var full, log := FullLog(node.log, past.h.logs), node.log.Compact(i, m.metadata.lastIncludedTerm, true);
            && FullLog(log, past.h.logs) == full && BaseOk(log, past.h.logs)
            && |node.log.EntriesAfter(i)| == |full| - i
  {
    hide SystemInv, Inv, NodeOk, Describes, LogInv, FullLog, Shipped, BaseOk, LogView.Term;
    EntriesShape(sys, past, n);
    BaseBelowCommit(sys, past, n);
    var node, i := sys.nodes[n], m.metadata.lastIncludedIndex;
    var full := FullLog(node.log, past.h.logs);
    TermLookup(node, full, i);
    CompactFull(node, full, past.h, i, m.metadata.lastIncludedTerm);
  }

  lemma ReplacedFull(past: Past, m: Message)
    requires m.InstallSnapshot? && m.term in past.h.logs && LogInv(past.h.logs[m.term], past.h)
    requires 0 < m.metadata.lastIncludedIndex <= |past.h.logs[m.term]|
    requires m.metadata.lastIncludedTerm == TermAt(past.h.logs[m.term], m.metadata.lastIncludedIndex)
    ensures var i := m.metadata.lastIncludedIndex;
            var log := LogView(i, m.metadata.lastIncludedTerm, []);
            FullLog(log, past.h.logs) == past.h.logs[m.term][..i] && BaseOk(log, past.h.logs)
  {
    hide LogInv;
    BaseAt(past.h.logs[m.term], past.h, m.metadata.lastIncludedIndex);
  }

  function Later(a: nat, b: nat): nat {
    if a <= b then b else a
  }

  lemma HoldAndLearn(s: State, n: NodeId, i: nat) returns (h: History)
    requires Inv(s) && n in s.peers && s.peers[n].role == Passive && s.peers[n].term in s.h.logs
    requires Agree(s.peers[n].log, s.h.logs[s.peers[n].term], i)
    requires s.peers[n].term in s.h.reach && i <= s.h.reach[s.peers[n].term]
    requires s.h.covering ==> Committed(s.h, s.h.logs[s.peers[n].term], i, s.peers[n].term)
    ensures Extends(s.h, h) && h.logs == s.h.logs && Through(n, s.peers[n].term, i) <= h.acks
    ensures Inv(WithPeer(s, n, s.peers[n].(commit := Later(s.peers[n].commit, i)), h))
  {
    hide Inv, Extends, Committed, Agree;
    AcknowledgeKeepsInv(s, n, i);
    var q := Acknowledge(s, n, i);
    h := q.h;
    AgreeLength(s.peers[n].log, s.h.logs[s.peers[n].term], i);
    if s.peers[n].commit <= i {
      if s.h.covering {
        CommittedExtends(s.h, h, s.h.logs[s.peers[n].term], i, s.peers[n].term, s.peers[n].term);
      }
      LearnKeepsInv(q, n, i);
      assert Learn(q, n, i) == WithPeer(s, n, s.peers[n].(commit := i), h) by {
        TwiceWith(s, n, s.peers[n], s.peers[n].(commit := i), h);
      }
    }
  }

  lemma TwiceWith(s: State, n: NodeId, a: Peer, b: Peer, h: History)
    ensures WithPeer(WithPeer(s, n, a, h), n, b, h) == WithPeer(s, n, b, h)
  {
    assert s.peers[n := a][n := b] == s.peers[n := b];
  }

  lemma AdoptAndLearn(s: State, n: NodeId, i: nat) returns (h: History)
    requires Inv(s) && n in s.peers && s.peers[n].role == Passive && s.peers[n].term in s.h.logs
    requires i <= |s.h.logs[s.peers[n].term]| && !Agree(s.peers[n].log, s.h.logs[s.peers[n].term], i)
    requires s.peers[n].commit <= i
    requires s.peers[n].term in s.h.reach && i <= s.h.reach[s.peers[n].term]
    requires s.h.covering ==> Committed(s.h, s.h.logs[s.peers[n].term], i, s.peers[n].term)
    ensures Extends(s.h, h) && h.logs == s.h.logs && Through(n, s.peers[n].term, i) <= h.acks
    ensures Inv(WithPeer(s, n, s.peers[n].(log := s.h.logs[s.peers[n].term][..i], commit := i), h))
  {
    hide Inv, Extends, Committed;
    AdoptKeepsInv(s, n, i);
    var q := Adopt(s, n, i);
    h := q.h;
    if s.h.covering {
      CommittedExtends(s.h, h, s.h.logs[s.peers[n].term], i, s.peers[n].term, s.peers[n].term);
    }
    LearnKeepsInv(q, n, i);
    var p := s.peers[n].(log := s.h.logs[s.peers[n].term][..i]);
    TwiceWith(s, n, p, p.(commit := i), h);
  }

  /** The installed node is well shaped. */
  lemma InstalledOk(cfg: Configuration, built: set<PersistentSnapshot>, past: Past, n: NodeId, node: Node,
                    s: PersistentSnapshot)
    requires NodeOk(cfg, built, past, n, node) && node.role == Follower
    requires s in built && s.Validate() && Usable(s) && s.metadata.configuration == cfg
    requires var i := s.metadata.lastIncludedIndex;
             && node.hardState.commitIndex < i && BaseOk(Installed(node, s).log, past.h.logs)
             && (node.log.Term(i) == Some(s.metadata.lastIncludedTerm) ==>
                   |node.log.EntriesAfter(i)| == node.log.baseIndex + |node.log.entries| - i)
             && (node.log.Term(i).Some? ==> i <= node.log.baseIndex + |node.log.entries|)
    ensures NodeOk(cfg, built, past, n, Installed(node, s))
  {
    hide BaseOk, LogView.Term, LogView.EntriesAfter;
    var next := Installed(node, s);
    forall c ensures PendingOk(past, next, c) {
      assert PendingOk(past, node, c);
    }
  }

  /** The store accepts the install. */
  lemma InstallAccepted(node: Node, s: PersistentSnapshot)
    requires s.Validate() && Usable(s) && node.appliedIndex < s.metadata.lastIncludedIndex
             && node.log.baseIndex <= node.appliedIndex
    requires StableStore.LastIndex(node.Stable()) == node.log.LastIndex() == node.log.baseIndex + |node.log.entries|
    requires StableStore.BaseIndex(node.Stable()) == node.log.baseIndex
    requires StableStore.ValidIndexes(Installed(node, s).Stable())
    ensures var next := Installed(node, s);
            StableStore.Execute(node.Stable(), Persist(InstallReceived(s, next.log.entries, next.hardState)))
              == StableStore.Publish(next.Stable())
  {
    hide StableStore.ValidIndexes, PersistentSnapshot.Validate;
  }

  lemma InstallInv(sys: System, past: Past, n: NodeId, from: NodeId, m: Message, s: PersistentSnapshot, a: Action)
    returns (q: Past)
    requires n in sys.nodes && m.InstallSnapshot? && s.metadata == m.metadata && !a.Send?
    requires SystemInv(sys, past) && Shipped(sys.built, past, from, m)
    requires s in sys.built && s.Validate() && Usable(s) && s.metadata.configuration == sys.nodes[n].configuration
    requires sys.nodes[n].Term() == m.term && sys.nodes[n].role == Follower
    requires sys.nodes[n].hardState.commitIndex < m.metadata.lastIncludedIndex
    ensures Through(n, m.term, m.metadata.lastIncludedIndex) <= q.h.acks
    ensures PastExtends(past, q) && SystemInv(After(sys, n, [a], Installed(sys.nodes[n], s)), q)
  {
    hide SystemInv, Inv, NodeOk, Extends, Abs, PeerOf, WithPeer, PastExtends, After, Shipped, Through,
         PersistentSnapshot.Validate, LogView.Term, LogView.EntriesAfter, LogView.LastIndex;
    var h := InstallHere(sys, past, n, from, m, s);
    q := past.(h := h);
    SameReads(past, h);
    NodeFacts(sys, past, n, h);
    NodeOkExtends(sys.cfg, sys.built, past, q, n, sys.nodes[n]);
    ConfigurationOf(sys, past, n);
    InstallShape(sys, past, n, from, m, s);
    InstalledOk(sys.cfg, sys.built, q, n, sys.nodes[n], s);
    MoveTo(sys, past, n, Installed(sys.nodes[n], s), h, a);
  }

  lemma InstallShape(sys: System, past: Past, n: NodeId, from: NodeId, m: Message, s: PersistentSnapshot)
    requires n in sys.nodes && m.InstallSnapshot? && s.metadata == m.metadata
    requires SystemInv(sys, past) && Shipped(sys.built, past, from, m) && sys.nodes[n].Term() == m.term
    requires sys.nodes[n].hardState.commitIndex < m.metadata.lastIncludedIndex
    ensures var node, i := sys.nodes[n], m.metadata.lastIncludedIndex;
            && BaseOk(Installed(node, s).log, past.h.logs)
            && (node.log.Term(i) == Some(m.metadata.lastIncludedTerm) ==>
                  |node.log.EntriesAfter(i)| == node.log.baseIndex + |node.log.entries| - i)
            && (node.log.Term(i).Some? ==> i <= node.log.baseIndex + |node.log.entries|)
  {
    hide SystemInv, Inv, NodeOk, Describes, LogInv, FullLog, Shipped, BaseOk, LogView.Term, LogView.EntriesAfter;
    var node, i := sys.nodes[n], m.metadata.lastIncludedIndex;
    var full := FullLog(node.log, past.h.logs);
    EntriesShape(sys, past, n);
    FullLength(node, full);
    TermLookup(node, full, i);
    BaseBelowCommit(sys, past, n);
    ShippedFacts(sys, past, from, m);
    if node.log.Term(i) == Some(m.metadata.lastIncludedTerm) {
      RetainedFull(sys, past, n, from, m);
    } else {
      ReplacedFull(past, m);
    }
  }

  lemma InstallSafe(sys: System, past: Past, n: NodeId, from: NodeId, m: Message, s: PersistentSnapshot)
    returns (q: Past)
    requires n in sys.nodes && m.InstallSnapshot? && s.metadata == m.metadata
    requires SystemInv(sys, past) && Shipped(sys.built, past, from, m)
    requires s in sys.built && s.Validate() && Usable(s) && s.metadata.configuration == sys.nodes[n].configuration
    requires sys.nodes[n].Term() == m.term && sys.nodes[n].role == Follower
    requires sys.nodes[n].hardState.commitIndex < m.metadata.lastIncludedIndex
    ensures var o := InstallReceivedSnapshot(sys.nodes[n], from, s); Safe(sys, past, n, o.actions, o.node, q)
  {
    hide SystemInv, Safe, PastExtends, Through, Shipped, StableStore.Execute, StableStore.Publish,
         StableStore.ValidIndexes, PersistentSnapshot.Validate, LogView.Compact, LogView.Term, LogView.LastIndex;
    var node := sys.nodes[n];
    var next := Installed(node, s);
    var a := Persist(InstallReceived(s, next.log.entries, next.hardState));
    q := InstallInv(sys, past, n, from, m, s, a);
    StableValid(sys, past, n);
    StableValid(After(sys, n, [a], next), q, n);
    BaseBelowCommit(sys, past, n);
    ExtendsReflexive(past.h);
    NodeFacts(sys, past, n, past.h);
    InstallAccepted(node, s);
    Durable(sys, past, n, a, next, q);
    var first := Out(next, [a]);
    MidInv(sys, past, n, first, q);
    ReplySafe(After(sys, n, [a], next), q, n, from, true, m.metadata.byteLen, true, m.metadata.lastIncludedIndex);
    var reply := Out(next, SnapshotReply(next, from, true, m.metadata.byteLen, true, m.metadata.lastIncludedIndex));
    Then2(sys, past, n, first, q, reply, q);
    assert InstallReceivedSnapshot(node, from, s) == Then(first, reply);
  }

  /** The digest check admits only a snapshot that was built. */
  lemma DigestIdentifies(built: set<PersistentSnapshot>, past: Past, from: NodeId, m: Message, data: Bytes)
    requires Shipped(built, past, from, m)
    requires |data| == m.metadata.byteLen && Sha256(data) == m.metadata.sha256
    ensures PersistentSnapshot(m.metadata, data) in built
    ensures var s := PersistentSnapshot(m.metadata, data); s.Validate() && Usable(s)
  {
    var s :| s in built && s.metadata == m.metadata && s.Validate() && Usable(s);
    assert s == PersistentSnapshot(m.metadata, data);
  }

  lemma BufferSafe(sys: System, past: Past, n: NodeId, incoming: Option<IncomingSnapshot>)
    requires n in sys.nodes
    requires SystemInv(sys, past)
    ensures Safe(sys, past, n, [], sys.nodes[n].(incomingSnapshot := incoming), past)
  {
    hide SystemInv, Safe, NodeOk;
    BufferOk(sys, past, n, incoming);
    VolatileSafe(sys, past, n, sys.nodes[n].(incomingSnapshot := incoming));
  }

  lemma BufferOk(sys: System, past: Past, n: NodeId, incoming: Option<IncomingSnapshot>)
    requires n in sys.nodes
    requires SystemInv(sys, past)
    ensures NodeOk(sys.cfg, sys.built, past, n, sys.nodes[n].(incomingSnapshot := incoming))
  {
    hide Inv, PacketOk, ReadOk;
    var node, next := sys.nodes[n], sys.nodes[n].(incomingSnapshot := incoming);
    assert NodeOk(sys.cfg, sys.built, past, n, node);
    if node.role == Leader {
      forall v ensures ProgressOk(past, next, v) {
        assert ProgressOk(past, node, v);
      }
    }
    forall c ensures PendingOk(past, next, c) {
      assert PendingOk(past, node, c);
    }
  }

  lemma BufferThenReply(sys: System, past: Past, n: NodeId, incoming: Option<IncomingSnapshot>, to: NodeId,
                        accepted: bool, offset: nat)
    requires n in sys.nodes
    requires SystemInv(sys, past)
    ensures var next := sys.nodes[n].(incomingSnapshot := incoming);
            Safe(sys, past, n, SnapshotReply(next, to, accepted, offset, false, 0), next, past)
  {
    hide SystemInv, Safe, SnapshotReply;
    var next := sys.nodes[n].(incomingSnapshot := incoming);
    BufferSafe(sys, past, n, incoming);
    var a := Out(next, []);
    MidInv(sys, past, n, a, past);
    ReplySafe(After(sys, n, [], next), past, n, to, accepted, offset, false, 0);
    var reply := SnapshotReply(next, to, accepted, offset, false, 0);
    Then2(sys, past, n, a, past, Out(next, reply), past);
    assert [] + reply == reply;
  }

  lemma AppendChunkSafe(sys: System, past: Past, n: NodeId, from: NodeId, m: Message, have: Bytes) returns (q: Past)
    requires n in sys.nodes && m.InstallSnapshot?
    requires SystemInv(sys, past) && Shipped(sys.built, past, from, m)
    requires m.metadata.configuration == sys.nodes[n].configuration
    requires sys.nodes[n].Term() == m.term && sys.nodes[n].role == Follower
    requires sys.nodes[n].hardState.commitIndex < m.metadata.lastIncludedIndex
    ensures var o := AppendChunk(sys.nodes[n], from, m, have); Safe(sys, past, n, o.actions, o.node, q)
  {
    hide SystemInv, Safe, Shipped, SnapshotReply, InstallReceivedSnapshot, Sha256;
    var node, d := sys.nodes[n], m.metadata;
    q := past;
    if m.offset < |have| {
      ReplySafe(sys, past, n, from, m.offset + |m.data| <= |have|
                && have[m.offset..m.offset + |m.data|] == m.data, |have|, false, 0);
    } else if m.offset != |have| || |have| + |m.data| > d.byteLen {
      ReplySafe(sys, past, n, from, false, |have|, false, 0);
    } else {
      var all := have + m.data;
      if !m.done {
        BufferThenReply(sys, past, n, Some(IncomingSnapshot(d, all)), from, true, |all|);
        ReplyIgnoresBuffer(node, Some(IncomingSnapshot(d, all)), from, true, |all|, false, 0);
      } else if |all| != d.byteLen || Sha256(all) != d.sha256 {
        BufferThenReply(sys, past, n, None, from, false, 0);
        ReplyIgnoresBuffer(node, None, from, false, 0, false, 0);
      } else {
        DigestIdentifies(sys.built, past, from, m, all);
        q := InstallSafe(sys, past, n, from, m, PersistentSnapshot(d, all));
      }
    }
  }

  lemma ReplyIgnoresBuffer(node: Node, incoming: Option<IncomingSnapshot>, to: NodeId, accepted: bool, offset: nat,
                           done: bool, i: nat)
    ensures SnapshotReply(node.(incomingSnapshot := incoming), to, accepted, offset, done, i)
            == SnapshotReply(node, to, accepted, offset, done, i)
  {
  }

  lemma ReceiveChunkSafe(sys: System, past: Past, n: NodeId, from: NodeId, m: Message) returns (q: Past)
    requires n in sys.nodes && m.InstallSnapshot?
    requires SystemInv(sys, past) && Shipped(sys.built, past, from, m)
    requires sys.nodes[n].Term() == m.term && sys.nodes[n].role == Follower
    requires sys.nodes[n].appliedIndex >= sys.nodes[n].hardState.commitIndex
    ensures var o := ReceiveChunk(sys.nodes[n], from, m); Safe(sys, past, n, o.actions, o.node, q)
  {
    hide SystemInv, Safe, Shipped, SnapshotReply, AppendChunk;
    var node, d := sys.nodes[n], m.metadata;
    q := past;
    if d.configuration != node.configuration || d.byteLen > MAX_SNAPSHOT_BYTES || d.lastIncludedIndex == 0 {
      BufferThenReply(sys, past, n, None, from, false, 0);
      ReplyIgnoresBuffer(node, None, from, false, 0, false, 0);
    } else if d.lastIncludedIndex <= node.appliedIndex {
      AlreadySafe(sys, past, n, from, m);
    } else {
      var same := node.incomingSnapshot.Some? && node.incomingSnapshot.value.metadata == d;
      var r := if m.offset == 0 && !same then node.(incomingSnapshot := Some(IncomingSnapshot(d, []))) else node;
      assert r == node.(incomingSnapshot := r.incomingSnapshot);
      BufferSafe(sys, past, n, r.incomingSnapshot);
      if r.incomingSnapshot.None? || r.incomingSnapshot.value.metadata != d {
        BufferThenReply(sys, past, n, r.incomingSnapshot, from, false, 0);
      } else {
        var a := Out(r, []);
        MidInv(sys, past, n, a, past);
        q := AppendChunkSafe(After(sys, n, [], r), past, n, from, m, r.incomingSnapshot.value.data);
        var o := AppendChunk(r, from, m, r.incomingSnapshot.value.data);
        Then2(sys, past, n, a, past, o, q);
        assert Then(a, o) == o;
      }
    }
  }

  lemma OnInstallSnapshotSafe(sys: System, past: Past, n: NodeId, from: NodeId, m: Message) returns (q: Past)
    requires n in sys.nodes && m.InstallSnapshot?
    requires SystemInv(sys, past) && Shipped(sys.built, past, from, m)
    requires sys.nodes[n].appliedIndex >= sys.nodes[n].hardState.commitIndex
    ensures var o := OnInstallSnapshot(sys.nodes[n], from, m); Safe(sys, past, n, o.actions, o.node, q)
  {
    hide SystemInv, Safe, Shipped, SnapshotReply, ReceiveChunk;
    var node := sys.nodes[n];
    q := past;
    if m.leaderId != from {
      EmitNothing(sys, past, n);
    } else if m.term < node.Term() {
      ReplySafe(sys, past, n, from, false, 0, false, 0);
    } else {
      FollowThen(sys, past, n, m.term, Some(from), [ResetElectionTimer]);
      var f := BecomeFollower(node, m.term, Some(from));
      var b := Then(f, Out(f.node, [ResetElectionTimer]));
      MidInv(sys, past, n, b, past);
      q := ReceiveChunkSafe(After(sys, n, b.actions, b.node), past, n, from, m);
      Then2(sys, past, n, b, past, ReceiveChunk(b.node, from, m), q);
    }
  }
}
