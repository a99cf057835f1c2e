/** Applying, stepping down and electing keep the cluster invariant at every prefix. */
module RaftElections {
  import opened Wrappers
  import opened Ordering
  import opened RaftTypes
  import opened RaftLog
  import opened RaftNode
  import opened RaftSafety
  import opened RaftCluster
  import opened RaftMoves
  import StableStore

  /** Stages of one handler compose. */
  lemma Then2(sys: System, past: Past, n: NodeId, a: Out, g: Past, b: Out, q: Past)
    requires Safe(sys, past, n, a.actions, a.node, g)
    requires Safe(After(sys, n, a.actions, a.node), g, n, b.actions, b.node, q)
    ensures Safe(sys, past, n, Then(a, b).actions, Then(a, b).node, q)
  {
    hide Safe;
    Chain(sys, past, n, a.actions, a.node, g, b.actions, b.node, q);
  }

  /** One durable action whose new state the store would publish. */
  lemma Durable(sys: System, past: Past, n: NodeId, a: Action, node: Node, q: Past)
    requires SystemInv(sys, past) && n in sys.nodes && PastExtends(past, q)
    requires StableStore.Execute(sys.nodes[n].Stable(), a) == StableStore.Publish(node.Stable())
    requires SystemInv(After(sys, n, [a], node), q) && ActionOk(q, n, a)
    ensures Safe(sys, past, n, [a], node, q)
  {
    hide SystemInv, PastExtends, ActionOk, StableStore.Execute, Safe, StableStore.ValidIndexes;
    StableValid(After(sys, n, [a], node), q, n);
    Single(sys, past, n, a, node, q);
  }

  lemma AbsInv(sys: System, past: Past)
    requires SystemInv(sys, past)
    ensures Inv(Abs(sys, past.h)) && sys.nodes.Keys == sys.cfg.participants && sys.cfg.Valid()
  {
  }

  /** Safe with the same past: what a mid-system is. */
  lemma MidInv(sys: System, past: Past, n: NodeId, a: Out, g: Past)
    requires Safe(sys, past, n, a.actions, a.node, g)
    ensures SystemInv(After(sys, n, a.actions, a.node), g) && PastExtends(past, g)
    ensures n in After(sys, n, a.actions, a.node).nodes && After(sys, n, a.actions, a.node).nodes[n] == a.node
    ensures After(sys, n, a.actions, a.node).cfg == sys.cfg && After(sys, n, a.actions, a.node).built == sys.built
  {
    hide SystemInv, PastExtends, ActionsOk, CrashSafe, StableStore.ExecuteAll;
  }

  // -------------------------------------------------------------------- apply

  lemma NextEntry(sys: System, past: Past, n: NodeId)
    requires n in sys.nodes && sys.nodes[n].appliedIndex < sys.nodes[n].hardState.commitIndex
    requires SystemInv(sys, past)
    ensures var node := sys.nodes[n];
            var next := node.log.Entry(node.appliedIndex + 1);
            && next.Some? && next.value.index == node.appliedIndex + 1
            && (past.h.covering ==> node.appliedIndex < |past.h.chosen|
                                    && past.h.chosen[node.appliedIndex] == next.value)
  {
    hide SystemInv, Inv, LogInv, NodeOk, Describes, ShapeOk, FullLog, LogView.Entry;
    EntriesShape(sys, past, n);
    NodeShape(sys.cfg, sys.built, past, n, sys.nodes[n]);
    NextInFull(sys.nodes[n], FullLog(sys.nodes[n].log, past.h.logs), past.h.logs);
    if past.h.covering {
      PeerCommitChosen(Abs(sys, past.h), n);
    }
  }

  lemma NodeShape(cfg: Configuration, built: set<PersistentSnapshot>, past: Past, n: NodeId, node: Node)
    requires NodeOk(cfg, built, past, n, node)
    ensures ShapeOk(node, past.h.logs)
  {
  }

  lemma NextInFull(node: Node, full: Log, logs: map<nat, Log>)
    requires ShapeOk(node, logs) && Describes(full, node) && node.appliedIndex < node.hardState.commitIndex
    ensures node.appliedIndex < |full|
    ensures node.log.Entry(node.appliedIndex + 1) == Some(full[node.appliedIndex])
    ensures full[node.appliedIndex].index == node.appliedIndex + 1
  {
    hide TermsBelow, LastTerm, TermAt, LogView.LastTerm, LogView.LastIndex, BaseOk, Ordered;
    var k := node.appliedIndex - node.log.baseIndex;
    assert node.log.entries[k] == full[node.appliedIndex] && full[node.appliedIndex].index == node.appliedIndex + 1;
  }

  lemma AppliedInv(sys: System, past: Past, n: NodeId, a: Action)
    requires SystemInv(sys, past) && n in sys.nodes && sys.nodes[n].appliedIndex < sys.nodes[n].hardState.commitIndex
    requires a.Apply?
    ensures SystemInv(After(sys, n, [a], sys.nodes[n].(appliedIndex := sys.nodes[n].appliedIndex + 1)), past)
  {
    var node := sys.nodes[n].(appliedIndex := sys.nodes[n].appliedIndex + 1);
    assert NodeOk(sys.cfg, sys.built, past, n, sys.nodes[n]);
    assert NodeOk(sys.cfg, sys.built, past, n, node) by {
      if node.role == Leader {
        forall v ensures ProgressOk(past, node, v) {
          assert ProgressOk(past, sys.nodes[n], v);
        }
      }
      forall c ensures PendingOk(past, node, c) {
        assert PendingOk(past, sys.nodes[n], c);
      }
    }
    SamePeer(sys, past, n, node, [a]);
  }

  /** A move that the abstraction does not see. */
  lemma SamePeer(sys: System, past: Past, n: NodeId, node: Node, actions: seq<Action>)
    requires SystemInv(sys, past) && n in sys.nodes
    requires PeerOf(node, past.h.logs) == PeerOf(sys.nodes[n], past.h.logs)
    requires NodeOk(sys.cfg, sys.built, past, n, node)
    requires PacketsOk(sys.cfg, sys.built, past, n, actions)
    ensures SystemInv(After(sys, n, actions, node), past)
  {
    hide NodeOk, PacketsOk, PacketOk, ReadOk, Inv;
    var s := Abs(sys, past.h);
    assert WithPeer(s, n, PeerOf(node, past.h.logs), past.h) == s by {
      assert s.peers[n := PeerOf(node, past.h.logs)] == s.peers;
    }
    PastExtendsReflexive(past);
    Move(sys, past, n, node, past, actions);
  }

  lemma ApplyOne(sys: System, past: Past, n: NodeId)
    requires SystemInv(sys, past) && n in sys.nodes && sys.nodes[n].appliedIndex < sys.nodes[n].hardState.commitIndex
    ensures sys.nodes[n].log.Entry(sys.nodes[n].appliedIndex + 1).Some?
    ensures Safe(sys, past, n, [Apply(sys.nodes[n].log.Entry(sys.nodes[n].appliedIndex + 1).value)],
                 sys.nodes[n].(appliedIndex := sys.nodes[n].appliedIndex + 1), past)
  {
    hide SystemInv, Safe, StableStore.ValidIndexes;
    NextEntry(sys, past, n);
    var node := sys.nodes[n];
    var a := Apply(node.log.Entry(node.appliedIndex + 1).value);
    AppliedInv(sys, past, n, a);
    PastExtendsReflexive(past);
    Durable(sys, past, n, a, node.(appliedIndex := node.appliedIndex + 1), past);
  }

  lemma {:induction false} ApplySafe(sys: System, past: Past, n: NodeId)
    requires SystemInv(sys, past) && n in sys.nodes
    ensures var o := ApplyCommitted(sys.nodes[n]);
            Safe(sys, past, n, o.actions, o.node, past) && o.node.appliedIndex >= o.node.hardState.commitIndex
    decreases sys.nodes[n].hardState.commitIndex - sys.nodes[n].appliedIndex
  {
    hide SystemInv, Safe;
    var node := sys.nodes[n];
    if node.appliedIndex >= node.hardState.commitIndex {
      assert ApplyCommitted(node) == Out(node, []);
      EmitNothing(sys, past, n);
    } else {
      ApplyOne(sys, past, n);
      var e := node.log.Entry(node.appliedIndex + 1).value;
      var m := node.(appliedIndex := node.appliedIndex + 1);
      var first := Out(m, [Apply(e)]);
      MidInv(sys, past, n, first, past);
      var t := After(sys, n, first.actions, m);
      var told := if node.role == Leader && e.payload.Command? then [ProposalCommitted(e.payload.id, e.index)] else [];
      Emit(t, past, n, told);
      Then2(sys, past, n, first, past, Out(m, told), past);
      var both := Then(first, Out(m, told));
      MidInv(sys, past, n, both, past);
      ApplySafe(After(sys, n, both.actions, m), past, n);
      Then2(sys, past, n, both, past, ApplyCommitted(m), past);
      assert ApplyCommitted(node) == Then(both, ApplyCommitted(m));
    }
  }

  lemma EmitNothing(sys: System, past: Past, n: NodeId)
    requires SystemInv(sys, past) && n in sys.nodes
    ensures Safe(sys, past, n, [], sys.nodes[n], past)
  {
    hide SystemInv, Safe;
    Emit(sys, past, n, []);
  }

  // --------------------------------------------------------------- stepping down

  lemma FollowerOk(cfg: Configuration, built: set<PersistentSnapshot>, past: Past, n: NodeId, node: Node, term: nat,
                   leader: Option<NodeId>)
    requires NodeOk(cfg, built, past, n, node)
    ensures NodeOk(cfg, built, past, n, BecomeFollower(node, term, leader).node)
  {
    hide RejectReads, Sorted, BaseOk;
  }

  lemma FollowerInv(sys: System, past: Past, n: NodeId, term: nat, leader: Option<NodeId>, actions: seq<Action>)
    requires SystemInv(sys, past) && n in sys.nodes && Sends(n, actions) == {}
    ensures SystemInv(After(sys, n, actions, BecomeFollower(sys.nodes[n], term, leader).node), past)
  {
    hide Inv, NodeOk, PacketOk, PacketsOk, ReadOk, FullLog, RejectReads, Sorted, PastExtends;
    var node := BecomeFollower(sys.nodes[n], term, leader).node;
    assert NodeOk(sys.cfg, sys.built, past, n, sys.nodes[n]);
    FollowerOk(sys.cfg, sys.built, past, n, sys.nodes[n], term, leader);
    var s := Abs(sys, past.h);
    StepDownKeepsInv(s, n, term);
    assert StepDown(s, n, term) == WithPeer(s, n, PeerOf(node, past.h.logs), past.h);
    PastExtendsReflexive(past);
    NoPackets(sys, past, n, actions);
    Move(sys, past, n, node, past, actions);
  }

  lemma NoPackets(sys: System, past: Past, n: NodeId, actions: seq<Action>)
    requires Sends(n, actions) == {}
    ensures PacketsOk(sys.cfg, sys.built, past, n, actions)
  {
    SendsInclude(n, actions);
  }

  lemma SendsInclude(n: NodeId, actions: seq<Action>)
    ensures forall a {:trigger a in actions} :: a in actions && a.Send? ==>
              Packet(n, a.to, a.message) in Sends(n, actions)
  {
  }

  lemma RejectionsOk(sys: System, past: Past, n: NodeId, contexts: seq<Bytes>, actions: seq<Action>)
    requires forall a {:trigger a in actions} ::
               a in actions ==> a in RejectReads(contexts) || (a.RoleChanged? && a.role == Follower)
    ensures ActionsOk(past, n, actions) && PacketsOk(sys.cfg, sys.built, past, n, actions)
    ensures forall a {:trigger a in actions} :: a in actions ==> Quiet(a)
  {
    forall a | a in actions ensures ActionOk(past, n, a) && Quiet(a) && !a.Send? {
      assert a in RejectReads(contexts) || a.RoleChanged?;
    }
  }

  lemma FollowPersisted(sys: System, past: Past, n: NodeId, term: nat, leader: Option<NodeId>)
    requires SystemInv(sys, past) && n in sys.nodes && term > sys.nodes[n].Term()
    ensures var m := BecomeFollower(sys.nodes[n], term, leader).node;
            StableStore.Execute(sys.nodes[n].Stable(), Persist(SetHardState(m.hardState)))
              == StableStore.Publish(m.Stable())
  {
    hide SystemInv, StableStore.ValidIndexes, RejectReads, Sorted, Recover, Rebooted;
    StableValid(sys, past, n);
    CommitBounded(sys, past, n);
  }

  lemma CommitBounded(sys: System, past: Past, n: NodeId)
    requires SystemInv(sys, past) && n in sys.nodes
    ensures sys.nodes[n].hardState.commitIndex <= sys.nodes[n].log.LastIndex()
    ensures sys.nodes[n].log.LastTerm() <= sys.nodes[n].Term()
  {
    hide SystemInv, Inv, LogInv;
    EntriesShape(sys, past, n);
  }

  lemma FollowSafe(sys: System, past: Past, n: NodeId, term: nat, leader: Option<NodeId>)
    requires SystemInv(sys, past) && n in sys.nodes
    ensures var o := BecomeFollower(sys.nodes[n], term, leader); Safe(sys, past, n, o.actions, o.node, past)
  {
    hide SystemInv, Safe, StableStore.ValidIndexes, RejectReads, Sorted, ActionsOk, PacketsOk, PastExtends, Recover,
         Rebooted;
    var node := sys.nodes[n];
    var o := BecomeFollower(node, term, leader);
    var first := Out(o.node, if term > node.Term() then [Persist(SetHardState(o.node.hardState))] else []);
    PastExtendsReflexive(past);
    FollowerInv(sys, past, n, term, leader, first.actions);
    if term > node.Term() {
      FollowPersisted(sys, past, n, term, leader);
      Durable(sys, past, n, first.actions[0], o.node, past);
    } else {
      Silent(sys, past, n, o.node, past);
    }
    var rest := RejectReads(Sorted(node.pendingReads.Keys))
                + (if node.role != Follower then [RoleChanged(Follower, o.node.Term())] else []);
    MidInv(sys, past, n, first, past);
    RejectionsOk(sys, past, n, Sorted(node.pendingReads.Keys), rest);
    Emit(After(sys, n, first.actions, o.node), past, n, rest);
    Then2(sys, past, n, first, past, Out(o.node, rest), past);
    assert o == Then(first, Out(o.node, rest));
  }

  /** Following is always possible, whatever the handler then does. */
  lemma FollowThen(sys: System, past: Past, n: NodeId, term: nat, leader: Option<NodeId>, actions: seq<Action>)
    requires SystemInv(sys, past) && n in sys.nodes
    requires forall a :: a in actions ==> a == ResetElectionTimer
    ensures var f := BecomeFollower(sys.nodes[n], term, leader);
            var o := Then(f, Out(f.node, actions)); Safe(sys, past, n, o.actions, o.node, past)
  {
    hide SystemInv, Safe;
    FollowSafe(sys, past, n, term, leader);
    var f := BecomeFollower(sys.nodes[n], term, leader);
    MidInv(sys, past, n, f, past);
    Emit(After(sys, n, f.actions, f.node), past, n, actions);
    Then2(sys, past, n, f, past, Out(f.node, actions), past);
  }

  // ------------------------------------------------------------------ sending

  /** Looking a term up in the retained log is looking it up in the full one. */
  lemma TermLookup(node: Node, full: Log, i: nat)
    requires Describes(full, node)
    ensures node.log.baseIndex <= i <= |full| ==> node.log.Term(i) == Some(TermAt(full, i))
    ensures i < node.log.baseIndex || i > |full| ==> node.log.Term(i) == None
  {
  }

  ghost predicate AllSends(sys: System, past: Past, n: NodeId, actions: seq<Action>) {
    forall a {:trigger a in actions} ::
        a in actions ==> a.Send? && PacketOk(sys.cfg, sys.built, past, Packet(n, a.to, a.message))
  }

  /** The node leads its term, and its full log is the term's log. */
  ghost predicate Leads(past: Past, n: NodeId, node: Node, full: Log) {
    && node.id == n
    && node.Term() in past.h.leaders && past.h.leaders[node.Term()] == n
    && node.Term() in past.h.logs && past.h.logs[node.Term()] == full
    && node.Term() in past.h.reach && past.h.reach[node.Term()] == node.hardState.commitIndex <= |full|
    && (past.h.covering ==> Committed(past.h, full, node.hardState.commitIndex, node.Term()))
  }

  lemma LeaderFacts(sys: System, past: Past, n: NodeId)
    requires SystemInv(sys, past) && n in sys.nodes && sys.nodes[n].role == Leader
    ensures n in sys.cfg.participants && NodeOk(sys.cfg, sys.built, past, n, sys.nodes[n])
    ensures var full := FullLog(sys.nodes[n].log, past.h.logs);
            Describes(full, sys.nodes[n]) && Leads(past, n, sys.nodes[n], full)
  {
    hide SystemInv, Inv, NodeOk, Describes, LogInv, FullLog, Committed;
    EntriesShape(sys, past, n);
    var s := Abs(sys, past.h);
    LeaderRole(s, n);
    PeerCommits(s, n);
  }

  /** The node's own bookkeeping for a peer, and where its log ends. */
  lemma SendFacts(sys: System, past: Past, n: NodeId, peer: NodeId)
    requires SystemInv(sys, past) && n in sys.nodes && sys.nodes[n].role == Leader
    ensures ProgressOk(past, sys.nodes[n], peer)
    ensures |FullLog(sys.nodes[n].log, past.h.logs)| == sys.nodes[n].log.LastIndex() >= sys.nodes[n].log.baseIndex
  {
    hide Inv, PacketOk, ReadOk;
    EntriesShape(sys, past, n);
  }

  lemma SendAppendOk(sys: System, past: Past, n: NodeId, peer: NodeId, context: Option<Bytes>)
    requires SystemInv(sys, past) && n in sys.nodes && sys.nodes[n].role == Leader && Known(past, n, context)
    ensures AllSends(sys, past, n, SendAppend(sys.nodes[n], peer, context))
  {
    hide SystemInv, PacketOk, NodeOk, Leads, Describes, FullLog, LogView.LastIndex, SendSnapshotChunk, LogView.Term,
         LogView.EntriesFrom;
    LeaderFacts(sys, past, n);
    SendFacts(sys, past, n, peer);
    var node := sys.nodes[n];
    if peer in node.progress {
      var p := node.progress[peer];
      if p.nextIndex <= node.log.baseIndex {
        ChunkOk(sys, past, n, peer, if p.snapshotOffset.Some? then p.snapshotOffset.value else 0);
      } else {
        var next := if p.nextIndex <= node.log.LastIndex() + 1 then p.nextIndex else node.log.LastIndex() + 1;
        AppendBatchOk(sys, past, n, peer, context, next);
      }
    }
  }

  lemma BatchSlice(node: Node, full: Log, next: nat)
    requires Describes(full, node) && node.log.baseIndex < next <= |full| + 1
    ensures var e := node.log.EntriesFrom(next, MAX_APPEND_ENTRIES);
            next - 1 + |e| <= |full| && forall k :: 0 <= k < |e| ==> e[k] == full[next - 1 + k]
  {
    hide WellFormed, TermsBelow, LastTerm, TermAt, LogView.LastTerm, LogView.LastIndex, LogView.EntriesAfter;
    var rest := node.log.EntriesAfter(next - 1);
    assert rest == node.log.entries[next - 1 - node.log.baseIndex..] by { RestOf(node.log, next - 1); }
    forall k | 0 <= k < |rest| ensures rest[k] == full[next - 1 + k] {
      assert rest[k] == node.log.entries[next - 1 - node.log.baseIndex + k];
    }
  }

  lemma RestOf(log: LogView, i: nat)
    requires log.baseIndex <= i <= log.baseIndex + |log.entries|
    ensures log.EntriesAfter(i) == log.entries[i - log.baseIndex..]
  {
  }

  lemma AppendBatchOk(sys: System, past: Past, n: NodeId, peer: NodeId, context: Option<Bytes>, next: nat)
    requires n in sys.nodes && n in sys.cfg.participants
    requires var node := sys.nodes[n];
             var full := FullLog(node.log, past.h.logs);
             && Describes(full, node) && Leads(past, n, node, full) && Known(past, n, context)
             && node.log.baseIndex < next <= |full| + 1
    ensures var node := sys.nodes[n];
            && node.log.Term(next - 1).Some?
            && PacketOk(sys.cfg, sys.built, past,
                        Packet(n, peer, AppendEntries(node.Term(), node.id, next - 1, node.log.Term(next - 1).value,
                                                      node.log.EntriesFrom(next, MAX_APPEND_ENTRIES),
                                                      node.hardState.commitIndex, context)))
  {
    hide Describes, FullLog, Committed, LogView.Term, LogView.EntriesFrom;
    var node := sys.nodes[n];
    var full := FullLog(node.log, past.h.logs);
    TermLookup(node, full, next - 1);
    BatchSlice(node, full, next);
  }

  lemma ChunkOk(sys: System, past: Past, n: NodeId, peer: NodeId, offset: nat)
    requires n in sys.nodes && n in sys.cfg.participants && sys.nodes[n].log.baseIndex >= 1
    requires NodeOk(sys.cfg, sys.built, past, n, sys.nodes[n])
    requires var full := FullLog(sys.nodes[n].log, past.h.logs);
             Describes(full, sys.nodes[n]) && Leads(past, n, sys.nodes[n], full)
    ensures AllSends(sys, past, n, SendSnapshotChunk(sys.nodes[n], peer, offset))
  {
    var node := sys.nodes[n];
    if past.h.covering {
      CommittedPrefix(past.h, FullLog(node.log, past.h.logs), node.hardState.commitIndex, node.log.baseIndex,
                      node.Term());
    }
  }

  lemma {:induction false} BroadcastOk(sys: System, past: Past, n: NodeId, peers: seq<NodeId>, context: Option<Bytes>)
    requires SystemInv(sys, past) && n in sys.nodes && sys.nodes[n].role == Leader && Known(past, n, context)
    ensures AllSends(sys, past, n, Broadcast(sys.nodes[n], peers, context))
    decreases |peers|
  {
    hide SystemInv, SendAppend, PacketOk;
    if peers != [] {
      SendAppendOk(sys, past, n, peers[0], context);
      BroadcastOk(sys, past, n, peers[1..], context);
    }
  }

  lemma EmitSends(sys: System, past: Past, n: NodeId, actions: seq<Action>)
    requires SystemInv(sys, past) && n in sys.nodes && AllSends(sys, past, n, actions)
    ensures Safe(sys, past, n, actions, sys.nodes[n], past)
  {
    hide SystemInv, PacketOk, Safe;
    assert ActionsOk(past, n, actions);
    Emit(sys, past, n, actions);
  }

  // ------------------------------------------------------------------- commit

  /** Raising the commit index, once the history justifies it. */
  lemma CommitInvAfter(sys: System, past: Past, n: NodeId, c: nat, h: History, a: Action)
    requires SystemInv(sys, past) && n in sys.nodes && Extends(past.h, h) && !a.Send?
    requires sys.nodes[n].hardState.commitIndex < c <= sys.nodes[n].log.LastIndex()
    requires var s := Abs(sys, past.h); Inv(WithPeer(s, n, s.peers[n].(commit := c), h))
    ensures SystemInv(After(sys, n, [a], sys.nodes[n].(hardState := sys.nodes[n].hardState.(commitIndex := c))),
                      past.(h := h))
  {
    hide SystemInv, Inv, NodeOk, Extends, Agree, FullLog, ReadOk, LogView.LastIndex, PacketsOk;
    var node := sys.nodes[n].(hardState := sys.nodes[n].hardState.(commitIndex := c));
    var q := past.(h := h);
    SameReads(past, h);
    NodeFacts(sys, past, n, h);
    NodeOkExtends(sys.cfg, sys.built, past, q, n, sys.nodes[n]);
    NodeOkCommit(sys.cfg, sys.built, q, n, sys.nodes[n], c);
    FullLogExtends(node.log, past.h, h);
    NoPackets(sys, q, n, [a]);
    Move(sys, past, n, node, q, [a]);
  }

  lemma NodeFacts(sys: System, past: Past, n: NodeId, h: History)
    requires SystemInv(sys, past) && n in sys.nodes && Extends(past.h, h)
    ensures NodeOk(sys.cfg, sys.built, past, n, sys.nodes[n])
    ensures sys.nodes[n].log.LastIndex() == sys.nodes[n].log.baseIndex + |sys.nodes[n].log.entries|
    ensures BaseOk(sys.nodes[n].log, past.h.logs)
  {
    hide Inv, PacketOk, ReadOk;
    EntriesShape(sys, past, n);
  }

  lemma NodeOkCommit(cfg: Configuration, built: set<PersistentSnapshot>, past: Past, n: NodeId, node: Node, c: nat)
    requires NodeOk(cfg, built, past, n, node)
    requires node.hardState.commitIndex < c <= node.log.baseIndex + |node.log.entries|
    ensures NodeOk(cfg, built, past, n, node.(hardState := node.hardState.(commitIndex := c)))
  {
    var next := node.(hardState := node.hardState.(commitIndex := c));
    if node.role == Leader {
      forall v ensures ProgressOk(past, next, v) {
        assert ProgressOk(past, node, v);
      }
    }
    forall x ensures PendingOk(past, next, x) {
      assert PendingOk(past, node, x);
    }
  }

  lemma SetCommitSafe(sys: System, past: Past, n: NodeId, c: nat, h: History)
    requires SystemInv(sys, past) && n in sys.nodes && Extends(past.h, h)
    requires sys.nodes[n].hardState.commitIndex < c <= sys.nodes[n].log.LastIndex()
    requires var s := Abs(sys, past.h); Inv(WithPeer(s, n, s.peers[n].(commit := c), h))
    ensures var o := SetCommit(sys.nodes[n], c); Safe(sys, past, n, o.actions, o.node, past.(h := h))
  {
    hide SystemInv, Safe, Inv, Extends, Abs, StableStore.ValidIndexes;
    var q := past.(h := h);
    var hs := sys.nodes[n].hardState.(commitIndex := c);
    var node := sys.nodes[n].(hardState := hs);
    var first := Out(node, [Persist(SetHardState(hs))]);
    CommitInvAfter(sys, past, n, c, h, first.actions[0]);
    StableValid(sys, past, n);
    SameReads(past, h);
    Durable(sys, past, n, first.actions[0], node, q);
    MidInv(sys, past, n, first, q);
    ApplySafe(After(sys, n, first.actions, node), q, n);
    Then2(sys, past, n, first, q, ApplyCommitted(node), q);
  }

  /** The leader's quorum index is acknowledged by a quorum. */
  lemma QuorumAcked(cfg: Configuration, built: set<PersistentSnapshot>, past: Past, n: NodeId, node: Node, i: nat)
    requires cfg.Valid() && NodeOk(cfg, built, past, n, node) && node.role == Leader
    requires node.Term() in past.h.reach && past.h.reach[node.Term()] < i == cfg.QuorumIndex(node.Matched())
    ensures cfg.Quorum(Ackers(past.h, node.Term(), i))
  {
    var matched := node.Matched();
    QuorumIndexIsExact(cfg, matched);
    var reached, ackers := Reached(matched, i), Ackers(past.h, node.Term(), i);
    forall v | v in reached ensures v in ackers {
      assert ProgressOk(past, node, v);
      assert Ack(v, node.Term(), i) in Through(v, node.Term(), node.progress[v].matchIndex);
    }
    QuorumMonotone(cfg, reached, ackers);
  }

  lemma ConfigurationOf(sys: System, past: Past, n: NodeId)
    requires SystemInv(sys, past) && n in sys.nodes
    ensures sys.nodes[n].configuration == sys.cfg && sys.nodes[n].id == n
  {
    assert NodeOk(sys.cfg, sys.built, past, n, sys.nodes[n]);
  }

  lemma DecideSafe(sys: System, past: Past, n: NodeId, i: nat) returns (h: History)
    requires SystemInv(sys, past) && n in sys.nodes && sys.nodes[n].role == Leader
    requires i == sys.cfg.QuorumIndex(sys.nodes[n].Matched())
    requires i > sys.nodes[n].hardState.commitIndex && sys.nodes[n].log.Term(i) == Some(sys.nodes[n].Term())
    ensures var o := SetCommit(sys.nodes[n], i); Safe(sys, past, n, o.actions, o.node, past.(h := h))
  {
    hide SystemInv, Safe, Inv, Extends, TermAt;
    DecidableHere(sys, past, n, i);
    var s := Abs(sys, past.h);
    DecideKeepsInv(s, n, i);
    h := Decide(s, n, i).h;
    SetCommitSafe(sys, past, n, i, h);
  }

  lemma DecidableHere(sys: System, past: Past, n: NodeId, i: nat)
    requires SystemInv(sys, past) && n in sys.nodes && sys.nodes[n].role == Leader
    requires i == sys.cfg.QuorumIndex(sys.nodes[n].Matched())
    requires i > sys.nodes[n].hardState.commitIndex && sys.nodes[n].log.Term(i) == Some(sys.nodes[n].Term())
    ensures Decidable(Abs(sys, past.h), n, i) && Inv(Abs(sys, past.h)) && i <= sys.nodes[n].log.LastIndex()
  {
    hide SystemInv, Inv, NodeOk, Describes, LogInv, Decidable, LogView.Term, LogView.LastIndex;
    EntriesShape(sys, past, n);
    LeaderFacts(sys, past, n);
    QuorumAcked(sys.cfg, sys.built, past, n, sys.nodes[n], i);
    DecidableFrom(Abs(sys, past.h), n, sys.nodes[n], FullLog(sys.nodes[n].log, past.h.logs), i);
  }

  lemma DecidableFrom(s: State, n: NodeId, node: Node, full: Log, i: nat)
    requires Describes(full, node) && n in s.peers
             && s.peers[n] == Peer(node.Term(), node.hardState.votedFor, full, node.hardState.commitIndex, Leading)
    requires i > node.hardState.commitIndex && node.log.Term(i) == Some(node.Term())
    requires s.cfg.Quorum(Ackers(s.h, node.Term(), i))
    ensures Decidable(s, n, i) && i <= node.log.LastIndex()
  {
    TermLookup(node, full, i);
  }

  lemma AdvanceSafe(sys: System, past: Past, n: NodeId) returns (q: Past)
    requires SystemInv(sys, past) && n in sys.nodes && sys.nodes[n].role == Leader
    ensures var o := AdvanceLeaderCommit(sys.nodes[n]); Safe(sys, past, n, o.actions, o.node, q)
  {
    hide Safe, Inv, SystemInv, NodeOk, Describes, Leads;
    LeaderFacts(sys, past, n);
    var node := sys.nodes[n];
    assert node.configuration == sys.cfg by {
      ConfigurationOf(sys, past, n);
    }
    var i := sys.cfg.QuorumIndex(node.Matched());
    if i > node.hardState.commitIndex && node.log.Term(i) == Some(node.Term()) {
      var h := DecideSafe(sys, past, n, i);
      q := past.(h := h);
    } else {
      q := past;
      EmitNothing(sys, past, n);
    }
  }

  /** After a leader's change: advance the commit index, then tell the peers. */
  lemma AdvanceAndSend(sys: System, past: Past, n: NodeId, all: bool, peer: NodeId) returns (q: Past)
    requires SystemInv(sys, past) && n in sys.nodes && sys.nodes[n].role == Leader
    ensures var o := AdvanceLeaderCommit(sys.nodes[n]);
            var r := Then(o, Out(o.node, if all then Broadcast(o.node, o.node.Peers(), None)
                                 else SendAppend(o.node, peer, None)));
            Safe(sys, past, n, r.actions, r.node, q)
  {
    hide SystemInv, Safe, SendAppend, Broadcast;
    q := AdvanceSafe(sys, past, n);
    var o := AdvanceLeaderCommit(sys.nodes[n]);
    AdvanceKeepsRole(sys.nodes[n]);
    MidInv(sys, past, n, o, q);
    var t := After(sys, n, o.actions, o.node);
    if all {
      BroadcastOk(t, q, n, o.node.Peers(), None);
      EmitSends(t, q, n, Broadcast(o.node, o.node.Peers(), None));
      Then2(sys, past, n, o, q, Out(o.node, Broadcast(o.node, o.node.Peers(), None)), q);
    } else {
      SendAppendOk(t, q, n, peer, None);
      EmitSends(t, q, n, SendAppend(o.node, peer, None));
      Then2(sys, past, n, o, q, Out(o.node, SendAppend(o.node, peer, None)), q);
    }
  }

  lemma {:induction false} ApplyKeepsRole(node: Node)
    ensures ApplyCommitted(node).node == node.(appliedIndex := ApplyCommitted(node).node.appliedIndex)
    decreases node.hardState.commitIndex - node.appliedIndex
  {
    if node.appliedIndex < node.hardState.commitIndex && node.log.Entry(node.appliedIndex + 1).Some? {
      ApplyKeepsRole(node.(appliedIndex := node.appliedIndex + 1));
    }
  }

  lemma AdvanceKeepsRole(node: Node)
    ensures var o := AdvanceLeaderCommit(node).node;
            o == node.(appliedIndex := o.appliedIndex,
                       hardState := node.hardState.(commitIndex := o.hardState.commitIndex))
  {
    var i := node.configuration.QuorumIndex(node.Matched());
    ApplyKeepsRole(node.(hardState := node.hardState.(commitIndex := i)));
  }
}
