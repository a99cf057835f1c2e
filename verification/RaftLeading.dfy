/** A leader's work: responses, proposals, linearizable reads and ticks. */
module RaftLeading {
  import opened Wrappers
  import opened Ordering
  import opened RaftTypes
  import opened RaftLog
  import opened RaftNode
  import opened RaftSafety
  import opened RaftCluster
  import opened RaftMoves
  import opened RaftElections
  import opened RaftVotes
  import opened RaftReplication
  import StableStore

  /** Changing only a leader's volatile bookkeeping. */
  ghost predicate Bookkeeping(past: Past, node: Node, next: Node) {
    && node.role == Leader
    && next == node.(progress := next.progress, recentActive := next.recentActive)
    && next.progress.Keys == node.progress.Keys
    && forall v {:trigger ProgressOk(past, next, v)} :: ProgressOk(past, next, v)
  }

  lemma BookkeepingSafe(sys: System, past: Past, n: NodeId, next: Node)
    requires n in sys.nodes
    requires SystemInv(sys, past) && Bookkeeping(past, sys.nodes[n], next)
    ensures Safe(sys, past, n, [], next, past)
  {
    hide SystemInv, Safe, Inv;
    EntriesShape(sys, past, n);
    BookkeepingOk(sys.cfg, sys.built, past, n, sys.nodes[n], next);
    VolatileSafe(sys, past, n, next);
  }

  lemma BookkeepingOk(cfg: Configuration, built: set<PersistentSnapshot>, past: Past, n: NodeId, node: Node, next: Node)
    requires NodeOk(cfg, built, past, n, node) && Bookkeeping(past, node, next)
    ensures NodeOk(cfg, built, past, n, next)
  {
    forall c ensures PendingOk(past, next, c) {
      assert PendingOk(past, node, c);
    }
  }

  lemma LeaderProgress(sys: System, past: Past, n: NodeId)
    requires n in sys.nodes && sys.nodes[n].role == Leader
    requires SystemInv(sys, past)
    ensures sys.nodes[n].progress.Keys == sys.cfg.participants && sys.nodes[n].id == n
            && sys.nodes[n].configuration == sys.cfg
    ensures n in sys.cfg.participants
    ensures forall v {:trigger ProgressOk(past, sys.nodes[n], v)} :: ProgressOk(past, sys.nodes[n], v)
  {
    hide Inv;
    EntriesShape(sys, past, n);
  }

  lemma ActiveOk(past: Past, node: Node, active: set<NodeId>)
    requires node.role == Leader && forall v {:trigger ProgressOk(past, node, v)} :: ProgressOk(past, node, v)
    ensures Bookkeeping(past, node, node.(recentActive := active))
  {
    var next := node.(recentActive := active);
    forall v ensures ProgressOk(past, next, v) {
      assert ProgressOk(past, node, v);
    }
  }

  lemma ProgressUpdated(past: Past, node: Node, from: NodeId, p: Progress)
    requires node.role == Leader && from in node.progress
    requires forall v {:trigger ProgressOk(past, node, v)} :: ProgressOk(past, node, v)
    requires p.nextIndex >= 1 && (p.matchIndex == 0 || Holds(past.h, from, node.Term(), p.matchIndex))
    ensures Bookkeeping(past, node, node.(progress := node.progress[from := p]))
  {
    var next := node.(progress := node.progress[from := p]);
    forall v ensures ProgressOk(past, next, v) {
      assert ProgressOk(past, node, v);
    }
  }

  // ------------------------------------------------------------------- responses

  lemma MatchSafe(sys: System, past: Past, n: NodeId, from: NodeId, m: Message) returns (q: Past)
    requires n in sys.nodes && sys.nodes[n].role == Leader && m.AppendEntriesResponse?
    requires SystemInv(sys, past) && Through(from, sys.nodes[n].Term(), m.matchIndex) <= past.h.acks
    ensures var o := MatchReported(sys.nodes[n], from, m); Safe(sys, past, n, o.actions, o.node, q)
  {
    hide SystemInv, Safe, AdvanceLeaderCommit, SendAppend, Through, ProgressOk;
    var node := sys.nodes[n];
    LeaderProgress(sys, past, n);
    var p := if from in node.progress
        then node.(progress := node.progress[from := Raised(node.progress[from], m.matchIndex)]) else node;
    RaisedSafe(sys, past, n, from, m.matchIndex);
    var a := Out(p, []);
    MidInv(sys, past, n, a, past);
    var t := After(sys, n, [], p);
    var o := AdvanceLeaderCommit(p);
    if m.matchIndex < o.node.log.LastIndex() {
      q := AdvanceAndSend(t, past, n, false, from);
      Then2(sys, past, n, a, past, Then(o, Out(o.node, SendAppend(o.node, from, None))), q);
    } else {
      q := AdvanceSafe(t, past, n);
      Then2(sys, past, n, a, past, o, q);
      assert Then(o, Out(o.node, [])) == o;
    }
    assert MatchReported(node, from, m) == Then(a, MatchReported(node, from, m));
  }

  /** Raising a peer's match index to something it acknowledged. */
  lemma RaisedSafe(sys: System, past: Past, n: NodeId, from: NodeId, i: nat)
    requires n in sys.nodes && sys.nodes[n].role == Leader
    requires SystemInv(sys, past) && Holds(past.h, from, sys.nodes[n].Term(), i)
    ensures var node := sys.nodes[n];
            var p := if from in node.progress
                then node.(progress := node.progress[from := Raised(node.progress[from], i)]) else node;
            Safe(sys, past, n, [], p, past)
  {
    hide SystemInv, Safe, Through, Bookkeeping;
    var node := sys.nodes[n];
    LeaderProgress(sys, past, n);
    if from in node.progress {
      assert ProgressOk(past, node, from);
      ProgressUpdated(past, node, from, Raised(node.progress[from], i));
      BookkeepingSafe(sys, past, n, node.(progress := node.progress[from := Raised(node.progress[from], i)]));
    } else {
      EmitNothing(sys, past, n);
    }
  }

  lemma LoweredSafe(sys: System, past: Past, n: NodeId, from: NodeId, p: Progress)
    requires n in sys.nodes && sys.nodes[n].role == Leader && from in sys.nodes[n].progress
    requires SystemInv(sys, past) && p.nextIndex >= 1 && p.matchIndex == sys.nodes[n].progress[from].matchIndex
    ensures var m := sys.nodes[n].(progress := sys.nodes[n].progress[from := p]);
            Safe(sys, past, n, SendAppend(m, from, None), m, past)
  {
    hide SystemInv, Safe, Through, Bookkeeping, SendAppend, AllSends;
    var node := sys.nodes[n];
    LeaderProgress(sys, past, n);
    assert ProgressOk(past, node, from);
    ProgressUpdated(past, node, from, p);
    var m := node.(progress := node.progress[from := p]);
    BookkeepingSafe(sys, past, n, m);
    SendAfter(sys, past, n, m, from);
  }

  lemma SendAfter(sys: System, past: Past, n: NodeId, m: Node, from: NodeId)
    requires n in sys.nodes && m.role == Leader
    requires Safe(sys, past, n, [], m, past)
    ensures Safe(sys, past, n, SendAppend(m, from, None), m, past)
  {
    hide SystemInv, Safe, SendAppend, AllSends;
    var a := Out(m, []);
    MidInv(sys, past, n, a, past);
    SendAppendOk(After(sys, n, [], m), past, n, from, None);
    EmitSends(After(sys, n, [], m), past, n, SendAppend(m, from, None));
    Then2(sys, past, n, a, past, Out(m, SendAppend(m, from, None)), past);
    assert [] + SendAppend(m, from, None) == SendAppend(m, from, None);
  }

  lemma ConflictSafe(sys: System, past: Past, n: NodeId, from: NodeId, m: Message)
    requires n in sys.nodes && sys.nodes[n].role == Leader && m.AppendEntriesResponse?
    requires SystemInv(sys, past)
    ensures var o := ConflictReported(sys.nodes[n], from, m); Safe(sys, past, n, o.actions, o.node, past)
  {
    hide SystemInv, Safe, SendAppend, ProgressOk;
    var node := sys.nodes[n];
    if from in node.progress {
      LoweredSafe(sys, past, n, from, Lowered(node.progress[from], ResumeIndex(node, m)));
    } else {
      EmitNothing(sys, past, n);
      SendAfter(sys, past, n, node, from);
    }
  }

  // ------------------------------------------------------------------------ reads

  /** A quorum of answers that prove no answerer had moved on excludes a quorum that had. */
  lemma BarrierHolds(sys: System, past: Past, r: Reading, acks: set<NodeId>)
    requires SystemInv(sys, past) && r in past.readings
    requires acks <= Behind(r) && sys.cfg.Quorum(acks)
    ensures r.floor <= r.index
  {
    hide Inv, NodeOk, PacketOk;
    assert ReadOk(sys, past, r);
    AbsInv(sys, past);
    if sys.cfg.Quorum(Ahead(r)) {
      QuorumsIntersect(sys.cfg, acks, Ahead(r));
    }
  }

  lemma CompleteReadSafe(sys: System, past: Past, n: NodeId, context: Bytes)
    requires n in sys.nodes && context in sys.nodes[n].pendingReads
    requires SystemInv(sys, past) && sys.cfg.Quorum(sys.nodes[n].pendingReads[context].acknowledgements)
    ensures var o := CompleteRead(sys.nodes[n], context); Safe(sys, past, n, o.actions, o.node, past)
  {
    hide SystemInv, Safe, NodeOk;
    var node := sys.nodes[n];
    var o := CompleteRead(node, context);
    CompletedOk(sys, past, n, context);
    VolatileSafe(sys, past, n, o.node);
    var a := Out(o.node, []);
    MidInv(sys, past, n, a, past);
    Emit(After(sys, n, [], o.node), past, n, o.actions);
    Then2(sys, past, n, a, past, o, past);
    assert Then(a, o) == o;
  }

  lemma CompletedOk(sys: System, past: Past, n: NodeId, context: Bytes)
    requires n in sys.nodes && context in sys.nodes[n].pendingReads
    requires SystemInv(sys, past) && sys.cfg.Quorum(sys.nodes[n].pendingReads[context].acknowledgements)
    ensures NodeOk(sys.cfg, sys.built, past, n, CompleteRead(sys.nodes[n], context).node)
    ensures ActionsOk(past, n, CompleteRead(sys.nodes[n], context).actions)
  {
    hide SystemInv, NodeOk;
    PendingFacts(sys, past, n, context);
    var node := sys.nodes[n];
    if past.watch.Covers(n, context) {
      var r :| Latest(past, r) && Awaits(node, context, r);
      BarrierHolds(sys, past, r, node.pendingReads[context].acknowledgements);
      assert Latest(past, r) && Records(r, n, context) && r.floor <= node.pendingReads[context].index;
    }
    DropPending(sys.cfg, sys.built, past, n, node, context);
  }

  lemma PendingFacts(sys: System, past: Past, n: NodeId, context: Bytes)
    requires n in sys.nodes
    requires SystemInv(sys, past)
    ensures NodeOk(sys.cfg, sys.built, past, n, sys.nodes[n]) && sys.nodes[n].id == n
    ensures PendingOk(past, sys.nodes[n], context)
  {
    hide Inv, PacketOk, ReadOk;
    assert NodeOk(sys.cfg, sys.built, past, n, sys.nodes[n]);
  }

  lemma DropPending(cfg: Configuration, built: set<PersistentSnapshot>, past: Past, n: NodeId, node: Node,
                    context: Bytes)
    requires NodeOk(cfg, built, past, n, node)
    ensures NodeOk(cfg, built, past, n, node.(pendingReads := node.pendingReads - {context}))
  {
    var next := node.(pendingReads := node.pendingReads - {context});
    if node.role == Leader {
      forall v ensures ProgressOk(past, next, v) {
        assert ProgressOk(past, node, v);
      }
    }
    forall c ensures PendingOk(past, next, c) {
      assert PendingOk(past, node, c);
    }
  }

  function Acked(node: Node, from: NodeId, context: Bytes): Node
    requires context in node.pendingReads
  {
    var pending := node.pendingReads[context];
    node.(pendingReads := node.pendingReads[context := pending.(acknowledgements := pending.acknowledgements + {from})])
  }

  lemma AckedOk(cfg: Configuration, built: set<PersistentSnapshot>, past: Past, n: NodeId, node: Node, from: NodeId,
                context: Bytes)
    requires NodeOk(cfg, built, past, n, node) && context in node.pendingReads
    requires EchoOk(past, n, from, node.Term(), Some(context))
    ensures NodeOk(cfg, built, past, n, Acked(node, from, context)) && Acked(node, from, context).configuration == cfg
  {
    var next := Acked(node, from, context);
    if node.role == Leader {
      forall v ensures ProgressOk(past, next, v) {
        assert ProgressOk(past, node, v);
      }
    }
    forall c ensures PendingOk(past, next, c) {
      assert PendingOk(past, node, c);
    }
  }

  lemma AcknowledgeReadSafe(sys: System, past: Past, n: NodeId, from: NodeId, context: Bytes)
    requires n in sys.nodes
    requires SystemInv(sys, past) && EchoOk(past, n, from, sys.nodes[n].Term(), Some(context))
    ensures var o := AcknowledgeRead(sys.nodes[n], from, context); Safe(sys, past, n, o.actions, o.node, past)
  {
    hide SystemInv, Safe, NodeOk, EchoOk, CompleteRead, Describes;
    var node := sys.nodes[n];
    if context !in node.pendingReads {
      EmitNothing(sys, past, n);
    } else {
      EntriesShape(sys, past, n);
      AckedOk(sys.cfg, sys.built, past, n, node, from, context);
      var m := Acked(node, from, context);
      VolatileSafe(sys, past, n, m);
      if m.configuration.Quorum(m.pendingReads[context].acknowledgements) {
        var a := Out(m, []);
        MidInv(sys, past, n, a, past);
        CompleteReadSafe(After(sys, n, [], m), past, n, context);
        Then2(sys, past, n, a, past, CompleteRead(m, context), past);
        assert Then(a, CompleteRead(m, context)) == CompleteRead(m, context);
      }
    }
  }

  /** Reads leave role, term and log alone. */
  lemma ReadKeepsNode(node: Node, from: NodeId, context: Bytes)
    ensures var o := AcknowledgeRead(node, from, context).node; o == node.(pendingReads := o.pendingReads)
  {
  }

  lemma OnAppendResponseSafe(sys: System, past: Past, n: NodeId, from: NodeId, m: Message) returns (q: Past)
    requires n in sys.nodes && m.AppendEntriesResponse?
    requires SystemInv(sys, past)
    requires m.success ==> Through(from, m.term, m.matchIndex) <= past.h.acks
    requires EchoOk(past, n, from, m.term, m.readContext)
    ensures var o := OnAppendResponse(sys.nodes[n], from, m); Safe(sys, past, n, o.actions, o.node, q)
  {
    hide SystemInv, Safe, EchoOk, Through, AcknowledgeRead, MatchReported, ConflictReported, BecomeFollower,
         ProgressOk, Bookkeeping;
    var node := sys.nodes[n];
    q := past;
    if m.term > node.Term() {
      FollowThen(sys, past, n, m.term, None, [ResetElectionTimer]);
    } else if node.role != Leader || m.term != node.Term() {
      EmitNothing(sys, past, n);
    } else {
      LeaderProgress(sys, past, n);
      var active := node.(recentActive := node.recentActive + {from});
      ActiveOk(past, node, active.recentActive);
      BookkeepingSafe(sys, past, n, active);
      var a := Out(active, []);
      MidInv(sys, past, n, a, past);
      var t := After(sys, n, [], active);
      var read := if m.readContext.Some? then AcknowledgeRead(active, from, m.readContext.value) else Out(active, []);
      if m.readContext.Some? {
        AcknowledgeReadSafe(t, past, n, from, m.readContext.value);
        ReadKeepsNode(active, from, m.readContext.value);
      } else {
        EmitNothing(t, past, n);
      }
      Then2(sys, past, n, a, past, read, past);
      assert Then(a, read) == read;
      MidInv(sys, past, n, read, past);
      var u := After(sys, n, read.actions, read.node);
      if m.success {
        q := MatchSafe(u, past, n, from, m);
        Then2(sys, past, n, read, past, MatchReported(read.node, from, m), q);
      } else {
        ConflictSafe(u, past, n, from, m);
        Then2(sys, past, n, read, past, ConflictReported(read.node, from, m), past);
      }
    }
  }

  // -------------------------------------------------------------- accepting a read

  /** Everything committed is at most the read's index, unless a quorum moved on. */
  lemma FloorOrAhead(s: State, n: NodeId, r: Reading)
    requires Inv(s) && n in s.peers && s.peers[n].role == Leading
    requires var p := s.peers[n];
             && p.commit <= |p.log| && TermAt(p.log, p.commit) == p.term && p.term > 0
             && r.term == p.term && r.index == p.commit && r.floor == |s.h.chosen|
             && r.terms.Keys == s.peers.Keys && forall m :: m in s.peers ==> r.terms[m] == s.peers[m].term
    ensures r.floor <= r.index || s.cfg.Quorum(Ahead(r))
  {
    var p := s.peers[n];
    if |s.h.chosen| > p.commit {
      var c :| c in s.h.commits && c.index == |s.h.chosen|;
      assert RoleInv(s, n) && LeaderCommits(s, n, c) && CommitInv(s, c);
      assert PeerInv(s, n) && Ordered(p.log, p.commit - 1, c.index - 1);
      if c.term < p.term {
        LeaderCompleteness(s, c, p.term);
        assert false;
      }
      forall m | m in Ackers(s.h, c.term, c.index) ensures m in Ahead(r) {
        assert AckInv(s, Ack(m, c.term, c.index));
      }
      QuorumMonotone(s.cfg, Ackers(s.h, c.term, c.index), Ahead(r));
    }
  }

  /** The read as it is accepted. */
  function Record(sys: System, past: Past, n: NodeId, context: Bytes): Reading
    requires n in sys.nodes
  {
    Reading(n, context, |sys.asked|, sys.nodes[n].Term(), sys.nodes[n].hardState.commitIndex, |past.h.chosen|,
            map m | m in sys.nodes :: sys.nodes[m].Term())
  }

  /** The latest acceptance of the context is the one now being handled. */
  predicate Recorded(node: Node, context: Bytes, r: Reading) {
    Records(r, node.id, context) && r.term == node.Term() && r.index == node.hardState.commitIndex
      && node.id in Behind(r)
  }

  function Asking(node: Node, context: Bytes): Node {
    node.(pendingReads := node.pendingReads[context := PendingRead(node.hardState.commitIndex, {node.id})])
  }

  lemma AskingOk(cfg: Configuration, built: set<PersistentSnapshot>, past: Past, n: NodeId, node: Node, context: Bytes)
    requires NodeOk(cfg, built, past, n, node) && node.role == Leader
    requires exists r {:trigger Latest(past, r)} :: Latest(past, r) && Recorded(node, context, r)
    ensures NodeOk(cfg, built, past, n, Asking(node, context))
  {
    var next := Asking(node, context);
    forall v ensures ProgressOk(past, next, v) {
      assert ProgressOk(past, node, v);
    }
    forall c ensures PendingOk(past, next, c) {
      assert PendingOk(past, node, c);
    }
  }

  lemma RecordOk(sys: System, past: Past, n: NodeId, context: Bytes)
    requires n in sys.nodes && sys.nodes[n].role == Leader
    requires SystemInv(sys, past)
    requires sys.nodes[n].log.Term(sys.nodes[n].hardState.commitIndex) == Some(sys.nodes[n].Term())
    ensures var r := Record(sys, past, n, context);
            && r.terms.Keys == sys.cfg.participants
            && (r.floor <= r.index || sys.cfg.Quorum(Ahead(r)))
  {
    hide SystemInv, Inv, Describes, Leads, FullLog, NodeOk, LogView.Term;
    AbsInv(sys, past);
    LeaderFacts(sys, past, n);
    var s := Abs(sys, past.h);
    CommitTerm(sys, past, n);
    LeaderTermPositive(s, n);
    FloorOrAhead(s, n, Record(sys, past, n, context));
  }

  lemma CommitTerm(sys: System, past: Past, n: NodeId)
    requires n in sys.nodes
    requires SystemInv(sys, past)
    requires sys.nodes[n].log.Term(sys.nodes[n].hardState.commitIndex) == Some(sys.nodes[n].Term())
    ensures var full := FullLog(sys.nodes[n].log, past.h.logs);
            && sys.nodes[n].hardState.commitIndex <= |full|
            && TermAt(full, sys.nodes[n].hardState.commitIndex) == sys.nodes[n].Term()
  {
    hide SystemInv, Inv, FullLog, LogInv, Describes, NodeOk;
    EntriesShape(sys, past, n);
    var node := sys.nodes[n];
    var full := FullLog(node.log, past.h.logs);
    BaseBelowCommit(sys, past, n);
    CommitBounded(sys, past, n);
    FullLength(node, full);
    TermLookup(node, full, node.hardState.commitIndex);
  }

  lemma LeaderTermPositive(s: State, n: NodeId)
    requires Inv(s) && n in s.peers && s.peers[n].role == Leading
    ensures s.peers[n].term > 0
  {
    var t := s.peers[n].term;
    assert RoleInv(s, n) && LeaderInv(s, t) && CampaignInv(s, (n, t));
  }

  function Asked(sys: System, n: NodeId, context: Bytes): System {
    sys.(asked := sys.asked + [(n, context)])
  }

  function WithReading(past: Past, r: Reading): Past {
    past.(readings := past.readings + {r})
  }

  /** Recording an accepted read keeps the invariant, and makes it the latest of its context. */
  lemma AskedInv(sys: System, past: Past, n: NodeId, context: Bytes)
    requires n in sys.nodes && Accepts(sys.nodes[n], context)
    requires past.watch.Covers(n, context) ==> !Echoed(sys, n, sys.nodes[n].Term(), context)
    requires SystemInv(sys, past)
    ensures var q := WithReading(past, Record(sys, past, n, context));
            SystemInv(Asked(sys, n, context), q) && PastGrows(past, q)
  {
    hide Inv, NodeOk, PacketOk, Echoed, LogView.Term, Extends, Complete;
    var r := Record(sys, past, n, context);
    var t, q := Asked(sys, n, context), WithReading(past, r);
    assert Abs(t, q.h) == Abs(sys, past.h);
    ExtendsReflexive(past.h);
    RecordOk(sys, past, n, context);
    forall m | m in t.nodes ensures NodeOk(t.cfg, t.built, q, m, t.nodes[m]) {
      AskedNode(sys, past, n, context, m);
    }
    forall p | p in t.net ensures PacketOk(t.cfg, t.built, q, p) {
      AskedPacket(sys, past, n, context, p);
    }
    forall o ensures ReadOk(t, q, o) {
      assert ReadOk(sys, past, o);
    }
    CompleteGrows(sys.asked, past.readings, r);
  }

  lemma CompleteGrows(asked: seq<(NodeId, Bytes)>, readings: set<Reading>, r: Reading)
    requires Complete(asked, readings) && r.at == |asked|
    ensures Complete(asked + [(r.node, r.context)], readings + {r})
  {
    var next := asked + [(r.node, r.context)];
    forall k | 0 <= k < |next| ensures Noted(next, readings + {r}, k) {
      if k < |asked| {
        assert Noted(asked, readings, k);
        var o :| o in readings && o.at == k && Records(o, asked[k].0, asked[k].1);
        assert o in readings + {r} && Records(o, next[k].0, next[k].1);
      } else {
        assert r in readings + {r} && Records(r, next[k].0, next[k].1);
      }
    }
  }

  lemma AskedNode(sys: System, past: Past, n: NodeId, context: Bytes, m: NodeId)
    requires n in sys.nodes && m in sys.nodes && Accepts(sys.nodes[n], context)
    requires SystemInv(sys, past)
    ensures NodeOk(sys.cfg, sys.built, WithReading(past, Record(sys, past, n, context)), m, sys.nodes[m])
  {
    hide Inv, PacketOk, ReadOk, LogView.Term, ShapeOk, SnapshotOk;
    var q, node := WithReading(past, Record(sys, past, n, context)), sys.nodes[m];
    assert NodeOk(sys.cfg, sys.built, past, m, node);
    if node.role == Leader {
      forall v ensures ProgressOk(q, node, v) {
        assert ProgressOk(past, node, v);
      }
    }
    forall c ensures PendingOk(q, node, c) {
      assert PendingOk(past, node, c);
      if past.watch.Covers(node.id, c) && c in node.pendingReads {
        var r :| Latest(past, r) && Awaits(node, c, r);
        assert Latest(q, r);
      }
    }
  }

  lemma AskedPacket(sys: System, past: Past, n: NodeId, context: Bytes, p: Packet)
    requires n in sys.nodes && p in sys.net
    requires past.watch.Covers(n, context) ==> !Echoed(sys, n, sys.nodes[n].Term(), context)
    requires SystemInv(sys, past)
    ensures PacketOk(sys.cfg, sys.built, WithReading(past, Record(sys, past, n, context)), p)
  {
    hide Inv, NodeOk, ReadOk, Committed, AppendOk;
    assert PacketOk(sys.cfg, sys.built, past, p);
    assert past.watch.Covers(n, context) ==> !Echo(p, n, sys.nodes[n].Term(), context);
    AppendOkReadings(past, Record(sys, past, n, context), p.from, p.message);
  }

  lemma AppendOkReadings(past: Past, r: Reading, from: NodeId, m: Message)
    ensures m.AppendEntries? ==> AppendOk(WithReading(past, r), from, m) == AppendOk(past, from, m)
  {
  }

  /** The recorded read is the latest of its context. */
  lemma RecordIsLatest(sys: System, past: Past, n: NodeId, context: Bytes)
    requires n in sys.nodes
    requires SystemInv(sys, past)
    ensures var r := Record(sys, past, n, context);
            Latest(WithReading(past, r), r) && Recorded(sys.nodes[n], context, r)
  {
    hide Inv, PacketOk, NodeOk;
    Participates(sys, past, n);
    var r := Record(sys, past, n, context);
    forall o | o in past.readings ensures o.at <= r.at {
      assert ReadOk(sys, past, o);
    }
  }

  lemma AskSafe(sys: System, past: Past, n: NodeId, context: Bytes)
    requires n in sys.nodes && sys.nodes[n].role == Leader
    requires exists r {:trigger Latest(past, r)} :: Latest(past, r) && Recorded(sys.nodes[n], context, r)
    requires SystemInv(sys, past)
    ensures Safe(sys, past, n, [], Asking(sys.nodes[n], context), past)
  {
    hide SystemInv, Safe, NodeOk, Latest, Recorded;
    PendingFacts(sys, past, n, context);
    AskingOk(sys.cfg, sys.built, past, n, sys.nodes[n], context);
    VolatileSafe(sys, past, n, Asking(sys.nodes[n], context));
  }

  lemma KnownHere(past: Past, n: NodeId, node: Node, context: Bytes)
    requires node.id == n && exists r {:trigger Latest(past, r)} :: Latest(past, r) && Recorded(node, context, r)
    ensures Known(past, n, Some(context))
  {
    var r :| Latest(past, r) && Recorded(node, context, r);
    assert Records(r, n, context);
  }

  lemma OnReadIndexSafe(sys: System, past: Past, n: NodeId, context: Bytes)
    requires n in sys.nodes
    requires Accepts(sys.nodes[n], context) ==>
               exists r {:trigger Latest(past, r)} :: Latest(past, r) && Recorded(sys.nodes[n], context, r)
    requires SystemInv(sys, past)
    ensures var o := OnReadIndex(sys.nodes[n], context); Safe(sys, past, n, o.actions, o.node, past)
  {
    hide SystemInv, Safe, CompleteRead, Broadcast, LogView.Term, Latest, Recorded;
    var node := sys.nodes[n];
    if !Accepts(node, context) {
      Emit(sys, past, n, OnReadIndex(node, context).actions);
    } else {
      AskSafe(sys, past, n, context);
      var m := Asking(node, context);
      var a := Out(m, []);
      MidInv(sys, past, n, a, past);
      var t := After(sys, n, [], m);
      Participates(t, past, n);
      if m.configuration.Quorum({node.id}) {
        CompleteReadSafe(t, past, n, context);
        Then2(sys, past, n, a, past, CompleteRead(m, context), past);
        assert Then(a, CompleteRead(m, context)) == CompleteRead(m, context);
      } else {
        KnownHere(past, n, node, context);
        BroadcastOk(t, past, n, m.Peers(), Some(context));
        EmitSends(t, past, n, Broadcast(m, m.Peers(), Some(context)));
        var b := Out(m, Broadcast(m, m.Peers(), Some(context)));
        Then2(sys, past, n, a, past, b, past);
        assert Then(a, b) == b;
      }
    }
  }

  // -------------------------------------------------------------------- proposals

  function Extended(node: Node, e: LogEntry): Node {
    node.(log := node.log.Append([e]),
          progress := if node.id in node.progress
                      then node.progress[node.id := node.progress[node.id].(matchIndex := e.index,
                                                                            nextIndex := e.index + 1)]
                      else node.progress)
  }

  lemma ExtendedOk(cfg: Configuration, built: set<PersistentSnapshot>, past: Past, n: NodeId, node: Node, e: LogEntry)
    requires NodeOk(cfg, built, past, n, node) && node.role == Leader
    requires Through(n, node.Term(), e.index) <= past.h.acks
    ensures NodeOk(cfg, built, past, n, Extended(node, e))
  {
    var next := Extended(node, e);
    forall v ensures ProgressOk(past, next, v) {
      assert ProgressOk(past, node, v);
    }
    forall c ensures PendingOk(past, next, c) {
      assert PendingOk(past, node, c);
    }
  }

  lemma ExtendHere(sys: System, past: Past, n: NodeId, e: LogEntry) returns (h: History)
    requires n in sys.nodes && sys.nodes[n].role == Leader
    requires SystemInv(sys, past) && e.index == sys.nodes[n].log.LastIndex() + 1 && e.term == sys.nodes[n].Term()
    ensures Extends(past.h, h)
    ensures Inv(WithPeer(Abs(sys, past.h), n, PeerOf(Extended(sys.nodes[n], e), h.logs), h))
    ensures Through(n, sys.nodes[n].Term(), e.index) <= h.acks
  {
    hide SystemInv, Inv, Extends, FullLog, BaseOk, NodeOk, LogView.LastIndex, LogView.LastTerm, LogView.Append;
    AbsInv(sys, past);
    LogEnds(sys, past, n);
    var s := Abs(sys, past.h);
    ExtendKeepsInv(s, n, e);
    h := Extend(s, n, e).h;
    NodeFacts(sys, past, n, h);
    FullLogExtends(sys.nodes[n].log, past.h, h);
    AppendFull(sys.nodes[n].log, h.logs, e);
  }

  lemma ExtendedInv(sys: System, past: Past, n: NodeId, e: LogEntry, a: Action) returns (q: Past)
    requires n in sys.nodes && sys.nodes[n].role == Leader && !a.Send?
    requires SystemInv(sys, past) && e.index == sys.nodes[n].log.LastIndex() + 1 && e.term == sys.nodes[n].Term()
    ensures PastExtends(past, q) && SystemInv(After(sys, n, [a], Extended(sys.nodes[n], e)), q)
  {
    hide SystemInv, Inv, NodeOk, Extends, Abs, PeerOf, WithPeer, PastExtends, After, Through;
    var h := ExtendHere(sys, past, n, e);
    q := past.(h := h);
    SameReads(past, h);
    NodeFacts(sys, past, n, h);
    NodeOkExtends(sys.cfg, sys.built, past, q, n, sys.nodes[n]);
    ExtendedOk(sys.cfg, sys.built, q, n, sys.nodes[n], e);
    MoveTo(sys, past, n, Extended(sys.nodes[n], e), h, a);
  }

  lemma OnProposeSafe(sys: System, past: Past, n: NodeId, id: nat, command: Bytes) returns (q: Past)
    requires n in sys.nodes
    requires SystemInv(sys, past)
    ensures var o := OnPropose(sys.nodes[n], id, command); Safe(sys, past, n, o.actions, o.node, q)
  {
    hide SystemInv, Safe, Inv, AdvanceLeaderCommit, Broadcast, PastExtends, StableStore.Execute, StableStore.Publish,
         StableStore.ValidIndexes;
    var node := sys.nodes[n];
    if node.role != Leader {
      q := past;
      Emit(sys, past, n, [ProposalRejected(id, node.leaderId)]);
    } else {
      var e := LogEntry(node.log.LastIndex() + 1, node.Term(), Command(id, command));
      var a := Persist(Append([e]));
      var g := ExtendedInv(sys, past, n, e, a);
      var m := Extended(node, e);
      AppendAccepted(sys, past, n, e, m);
      Durable(sys, past, n, a, m, g);
      var first := Out(m, [a]);
      MidInv(sys, past, n, first, g);
      q := AdvanceAndSend(After(sys, n, [a], m), g, n, true, n);
      var o := AdvanceLeaderCommit(m);
      var rest := Then(o, Out(o.node, Broadcast(o.node, o.node.Peers(), None)));
      Then2(sys, past, n, first, g, rest, q);
      assert OnPropose(node, id, command) == Then(first, rest);
    }
  }

  // ------------------------------------------------------------------------ ticks

  lemma OnTickSafe(sys: System, past: Past, n: NodeId, tick: Tick) returns (q: Past)
    requires n in sys.nodes
    requires SystemInv(sys, past)
    ensures var o := OnTick(sys.nodes[n], tick); Safe(sys, past, n, o.actions, o.node, q)
  {
    hide SystemInv, Safe, Broadcast, StartPreVote, BecomeFollower, Bookkeeping, ProgressOk, AllSends;
    var node := sys.nodes[n];
    q := past;
    if tick == Election && node.role != Leader {
      q := PreVoteSafe(sys, past, n);
    } else if tick == Heartbeat && node.role == Leader {
      BroadcastOk(sys, past, n, node.Peers(), None);
      EmitSends(sys, past, n, Broadcast(node, node.Peers(), None));
      var a := Out(node, Broadcast(node, node.Peers(), None));
      MidInv(sys, past, n, a, past);
      Emit(After(sys, n, a.actions, node), past, n, [ResetHeartbeatTimer]);
      Then2(sys, past, n, a, past, Out(node, [ResetHeartbeatTimer]), past);
    } else if tick == CheckQuorum && node.role == Leader {
      if node.configuration.Quorum(node.recentActive) {
        LeaderProgress(sys, past, n);
        var m := node.(recentActive := {node.id});
        ActiveOk(past, node, {node.id});
        BookkeepingSafe(sys, past, n, m);
        var a := Out(m, []);
        MidInv(sys, past, n, a, past);
        var t := After(sys, n, [], m);
        BroadcastOk(t, past, n, m.Peers(), None);
        EmitSends(t, past, n, Broadcast(m, m.Peers(), None));
        Then2(sys, past, n, a, past, Out(m, Broadcast(m, m.Peers(), None)), past);
        assert [] + Broadcast(m, m.Peers(), None) == Broadcast(m, m.Peers(), None);
      } else {
        FollowThen(sys, past, n, node.Term(), None, [ResetElectionTimer]);
      }
    } else {
      EmitNothing(sys, past, n);
    }
  }
}
