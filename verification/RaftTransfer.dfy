/** Snapshot transfer: from wherever leader and follower stand, exchanging chunks and
    answers brings the leader's snapshot to the follower, byte for byte. */
module RaftTransfer {
  import opened Wrappers
  import opened Ordering
  import opened RaftTypes
  import opened RaftLog
  import opened RaftNode
  import opened RaftCluster
  import opened RaftElections
  import opened RaftTheorems
  import RaftRuns

  // -------------------------------------------------------------------- going on

  /** A run of the cluster ends in this state. */
  predicate Reaches(cfg: Configuration, events: seq<Event>, sys: System) {
    ClusterRun(cfg, events) && Run(Initial(cfg), events) == sys
  }

  /** One more message is delivered, and the receiver does not crash. */
  lemma Deliver(cfg: Configuration, events: seq<Event>, sys: System, from: NodeId, n: NodeId, m: Message)
    returns (e: Event, next: System)
    requires Reaches(cfg, events, sys) && n in sys.nodes && Packet(from, n, m) in sys.net
    requires sys.nodes[n].appliedIndex == sys.nodes[n].hardState.commitIndex
    ensures e == Event(n, Receive(from, m), None) && Reaches(cfg, events + [e], next) && sys.net <= next.net
    ensures next.nodes == sys.nodes[n := OnMessage(sys.nodes[n], from, m).node]
    ensures forall a {:trigger a in OnMessage(sys.nodes[n], from, m).actions} ::
              a in OnMessage(sys.nodes[n], from, m).actions && a.Send? ==> Packet(n, a.to, a.message) in next.net
  {
    hide OnMessage, Initial, ValidRun, Run, Emitted, CoveringRun, FreshRun, Step;
    e := Event(n, Receive(from, m), None);
    RaftRuns.StepIsHandle(sys.nodes[n], e.input);
    RaftRuns.RunAppend(Initial(cfg), events, e);
    next := Next(sys, e);
  }

  // --------------------------------------------------------------------- one chunk

  function End(s: PersistentSnapshot, offset: nat): nat {
    if offset + SNAPSHOT_CHUNK_BYTES <= |s.data| then offset + SNAPSHOT_CHUNK_BYTES else |s.data|
  }

  /** The part of the snapshot that starts at the offset, at most 16 KiB of it. */
  function Chunk(term: nat, leader: NodeId, s: PersistentSnapshot, offset: nat): Message
    requires offset <= |s.data|
  {
    InstallSnapshot(term, leader, s.metadata, offset, s.data[offset..End(s, offset)], End(s, offset) == |s.data|)
  }

  /** The leader has the snapshot the peer needs. */
  predicate Sender(n: Node, f: NodeId, s: PersistentSnapshot) {
    && n.role == Leader && n.appliedIndex == n.hardState.commitIndex && n.snapshot == Some(s)
    && n.configuration.Contains(f) && f != n.id && f in n.progress && n.progress[f].nextIndex <= n.log.baseIndex
  }

  /** What the follower has gathered of the snapshot, in whole chunks. */
  predicate Gathered(w: Node, s: PersistentSnapshot, have: nat) {
    && have < |s.data| && have % SNAPSHOT_CHUNK_BYTES == 0
    && w.incomingSnapshot == Some(IncomingSnapshot(s.metadata, s.data[..have]))
  }

  predicate Elsewhere(w: Node, s: PersistentSnapshot) {
    w.incomingSnapshot.None? || w.incomingSnapshot.value.metadata != s.metadata
  }

  /** The follower needs the snapshot and can use it. */
  ghost predicate Receiver(w: Node, l: NodeId, term: nat, s: PersistentSnapshot) {
    && w.Term() <= term && w.appliedIndex == w.hardState.commitIndex < s.metadata.lastIncludedIndex
    && s.Validate() && Usable(s) && s.metadata.configuration == w.configuration
    && w.configuration.Contains(l) && l != w.id
    && (Elsewhere(w, s) || exists have: nat :: Gathered(w, s, have))
  }

  function Answer(term: nat, accepted: bool, next: nat): Message {
    InstallSnapshotResponse(term, accepted, next, false, 0)
  }

  /** The follower under the leader's term, with this much of the snapshot. */
  function Holding(w: Node, l: NodeId, term: nat, incoming: Option<IncomingSnapshot>): Node {
    BecomeFollower(w, term, Some(l)).node.(incomingSnapshot := incoming)
  }

  lemma Chunked(w: Node, l: NodeId, m: Message, s: PersistentSnapshot)
    requires m.InstallSnapshot? && m.metadata == s.metadata && m.leaderId == l && Receiver(w, l, m.term, s)
    ensures var f := BecomeFollower(w, m.term, Some(l));
            && OnMessage(w, l, m) == Then(Then(f, Out(f.node, [ResetElectionTimer])), ReceiveChunk(f.node, l, m))
            && f.node == Holding(w, l, m.term, w.incomingSnapshot) && f.node.Term() == m.term
  {
    hide ReceiveChunk, RejectReads, Sorted;
  }

  /** The next chunk that is not the last. */
  lemma TakesChunk(w: Node, l: NodeId, term: nat, s: PersistentSnapshot, have: nat)
    requires Receiver(w, l, term, s) && have < |s.data| && (Gathered(w, s, have) || (have == 0 && Elsewhere(w, s)))
    requires End(s, have) < |s.data|
    ensures var o := OnMessage(w, l, Chunk(term, l, s, have));
            && o.node == Holding(w, l, term, Some(IncomingSnapshot(s.metadata, s.data[..End(s, have)])))
            && Send(l, Answer(term, true, End(s, have))) in o.actions
  {
    hide BecomeFollower, OnMessage, Sha256;
    var m := Chunk(term, l, s, have);
    Chunked(w, l, m, s);
    KeepsIndexes(w, l, term);
    var f := BecomeFollower(w, term, Some(l)).node;
    assert s.data[..have] + m.data == s.data[..End(s, have)];
    assert s.data[..0] == [];
    var o := ReceiveChunk(f, l, m);
    assert o == Out(f.(incomingSnapshot := Some(IncomingSnapshot(s.metadata, s.data[..End(s, have)]))),
                    [Send(l, Answer(term, true, End(s, have)))]);
    assert Send(l, Answer(term, true, End(s, have))) in o.actions;
  }

  /** The last chunk: the follower installs the whole snapshot. */
  lemma TakesLast(w: Node, l: NodeId, term: nat, s: PersistentSnapshot, have: nat)
    requires Receiver(w, l, term, s) && have < |s.data| && (Gathered(w, s, have) || (have == 0 && Elsewhere(w, s)))
    requires End(s, have) == |s.data|
    ensures var o, i := OnMessage(w, l, Chunk(term, l, s, have)), s.metadata.lastIncludedIndex;
            && o.node.snapshot == Some(s) && o.node.appliedIndex == i && o.node.hardState.commitIndex == i
            && o.node.log.baseIndex == i && o.node.log.baseTerm == s.metadata.lastIncludedTerm
            && o.node.Term() == term && o.node.incomingSnapshot.None?
            && Send(l, InstallSnapshotResponse(term, true, |s.data|, true, i)) in o.actions
  {
    hide BecomeFollower, OnMessage, Sha256, LogView.Term;
    var m := Chunk(term, l, s, have);
    Chunked(w, l, m, s);
    var f := BecomeFollower(w, term, Some(l)).node;
    KeepsIndexes(w, l, term);
    assert s.data[..have] + m.data == s.data;
    assert s.data[..0] == [] && [] + m.data == m.data;
    var r := f.(incomingSnapshot := Some(IncomingSnapshot(s.metadata, s.data[..have])));
    var o := ReceiveChunk(f, l, m);
    assert PersistentSnapshot(s.metadata, s.data) == s;
    assert o == InstallReceivedSnapshot(r, l, s);
    assert o.actions[1] == Send(l, InstallSnapshotResponse(term, true, |s.data|, true, s.metadata.lastIncludedIndex));
  }

  lemma KeepsIndexes(w: Node, l: NodeId, term: nat)
    ensures var f := BecomeFollower(w, term, Some(l)).node;
            && f.appliedIndex == w.appliedIndex && f.hardState.commitIndex == w.hardState.commitIndex
            && f.log == w.log && f.configuration == w.configuration && f.id == w.id
            && (w.Term() <= term ==> f.Term() == term)
  {
  }

  /** Any other chunk sends the leader to what the follower has, or back to the start. */
  lemma Redirects(w: Node, l: NodeId, term: nat, s: PersistentSnapshot, offset: nat)
    requires Receiver(w, l, term, s) && offset <= |s.data|
    requires Elsewhere(w, s) ==> offset > 0
    requires forall have: nat :: Gathered(w, s, have) ==> offset != have
    ensures exists accepted, next: nat ::
              && OnMessage(w, l, Chunk(term, l, s, offset)).node == Holding(w, l, term, w.incomingSnapshot)
              && Send(l, Answer(term, accepted, next)) in OnMessage(w, l, Chunk(term, l, s, offset)).actions
              && (accepted ==> Gathered(w, s, next))
              && (offset == 0 ==> accepted)
  {
    hide BecomeFollower, OnMessage, Sha256;
    var m := Chunk(term, l, s, offset);
    Chunked(w, l, m, s);
    KeepsIndexes(w, l, term);
    var f := BecomeFollower(w, term, Some(l)).node;
    var o := ReceiveChunk(f, l, m);
    if Elsewhere(w, s) {
      assert o == Out(f, [Send(l, Answer(term, false, 0))]);
      assert Send(l, Answer(term, false, 0)) in o.actions;
    } else {
      var have: nat :| Gathered(w, s, have);
      var held := s.data[..have];
      if offset < have {
        var matches := offset + |m.data| <= have && held[offset..offset + |m.data|] == m.data;
        assert o == Out(f, [Send(l, Answer(term, matches, have))]);
        assert Send(l, Answer(term, matches, have)) in o.actions;
        if offset == 0 {
          assert End(s, 0) <= have && held[..End(s, 0)] == s.data[..End(s, 0)];
        }
      } else {
        assert o == Out(f, [Send(l, Answer(term, false, have))]);
        assert Send(l, Answer(term, false, have)) in o.actions;
      }
    }
  }

  /** The leader after an answer. */
  function Noted(b: Node, f: NodeId, offset: nat): Node
    requires f in b.progress
  {
    b.(recentActive := b.recentActive + {f},
       progress := b.progress[f := b.progress[f].(snapshotOffset := Some(offset))])
  }

  lemma SendsNext(b: Node, f: NodeId, s: PersistentSnapshot, accepted: bool, next: nat)
    requires Sender(b, f, s) && (accepted ==> next <= |s.data|)
    ensures var offset := if accepted then next else 0;
            var o := OnMessage(b, f, Answer(b.Term(), accepted, next));
            && o.node == Noted(b, f, offset) && Sender(o.node, f, s)
            && Send(f, Chunk(b.Term(), b.id, s, offset)) in o.actions
  {
    hide BecomeFollower, AdvanceLeaderCommit, LogView.Term, LogView.LastIndex;
    var offset := if accepted then next else 0;
    var c := Send(f, Chunk(b.Term(), b.id, s, offset));
    assert SendAppend(Noted(b, f, offset), f, None) == [c];
    assert c in [c];
  }

  // ------------------------------------------------------------------- the transfer

  ghost predicate Shipping(cfg: Configuration, events: seq<Event>, sys: System, l: NodeId, f: NodeId,
                           s: PersistentSnapshot, offset: nat) {
    && Reaches(cfg, events, sys) && l in sys.nodes && f in sys.nodes && l != f && offset <= |s.data|
    && sys.nodes[l].id == l && Sender(sys.nodes[l], f, s) && Receiver(sys.nodes[f], l, sys.nodes[l].Term(), s)
    && Packet(l, f, Chunk(sys.nodes[l].Term(), l, s, offset)) in sys.net
  }

  /** The follower has the snapshot in place of its log up to there. */
  predicate Arrived(node: Node, s: PersistentSnapshot, term: nat) {
    && node.snapshot == Some(s) && node.Term() == term
    && node.appliedIndex == node.hardState.commitIndex == node.log.baseIndex == s.metadata.lastIncludedIndex
    && node.log.baseTerm == s.metadata.lastIncludedTerm
  }

  ghost predicate Shipped(cfg: Configuration, events: seq<Event>, sys: System, l: NodeId, f: NodeId,
                          s: PersistentSnapshot, term: nat) {
    && Reaches(cfg, events, sys) && l in sys.nodes && f in sys.nodes && Arrived(sys.nodes[f], s, term)
    && Sender(sys.nodes[l], f, s) && sys.nodes[l].Term() == term && sys.nodes[l].id == l
    && Packet(f, l, InstallSnapshotResponse(term, true, |s.data|, true, s.metadata.lastIncludedIndex)) in sys.net
  }

  predicate InStep(w: Node, s: PersistentSnapshot, offset: nat) {
    offset < |s.data| && (Gathered(w, s, offset) || (offset == 0 && Elsewhere(w, s)))
  }

  lemma HoldingReceives(w: Node, l: NodeId, term: nat, s: PersistentSnapshot, incoming: Option<IncomingSnapshot>)
    requires Receiver(w, l, term, s)
    requires incoming == w.incomingSnapshot
             || exists have: nat :: have < |s.data| && have % SNAPSHOT_CHUNK_BYTES == 0
                  && incoming == Some(IncomingSnapshot(s.metadata, s.data[..have]))
    ensures Receiver(Holding(w, l, term, incoming), l, term, s)
  {
    hide BecomeFollower;
    KeepsIndexes(w, l, term);
    var h := Holding(w, l, term, incoming);
    if incoming == w.incomingSnapshot {
      if have: nat :| Gathered(w, s, have) {
        assert Gathered(h, s, have);
      }
    } else {
      var have: nat :| have < |s.data| && have % SNAPSHOT_CHUNK_BYTES == 0
                  && incoming == Some(IncomingSnapshot(s.metadata, s.data[..have]));
      assert Gathered(h, s, have);
    }
  }

  /** The answer reaches the leader, who sends the next chunk. */
  lemma AnswerBack(cfg: Configuration, events: seq<Event>, sys: System, l: NodeId, f: NodeId, s: PersistentSnapshot,
                   accepted: bool, at: nat) returns (e: Event, next: System)
    requires Reaches(cfg, events, sys) && l in sys.nodes && f in sys.nodes && l != f && sys.nodes[l].id == l
    requires Sender(sys.nodes[l], f, s) && Receiver(sys.nodes[f], l, sys.nodes[l].Term(), s)
    requires Packet(f, l, Answer(sys.nodes[l].Term(), accepted, at)) in sys.net && (accepted ==> at <= |s.data|)
    ensures Shipping(cfg, events + [e], next, l, f, s, if accepted then at else 0)
    ensures next.nodes[f] == sys.nodes[f] && next.nodes[l].Term() == sys.nodes[l].Term()
  {
    hide Reaches, OnMessage, Receiver;
    var b := sys.nodes[l];
    SendsNext(b, f, s, accepted, at);
    e, next := Deliver(cfg, events, sys, f, l, Answer(b.Term(), accepted, at));
  }

  lemma WholeChunks(s: PersistentSnapshot, offset: nat)
    requires offset % SNAPSHOT_CHUNK_BYTES == 0 && End(s, offset) < |s.data|
    ensures End(s, offset) == offset + SNAPSHOT_CHUNK_BYTES && End(s, offset) % SNAPSHOT_CHUNK_BYTES == 0
  {
  }

  /** The follower takes a chunk that is not the last, and says where it stands. */
  lemma ChunkTaken(cfg: Configuration, events: seq<Event>, sys: System, l: NodeId, f: NodeId, s: PersistentSnapshot,
                   offset: nat) returns (e: Event, next: System)
    requires Shipping(cfg, events, sys, l, f, s, offset) && InStep(sys.nodes[f], s, offset) && End(s, offset) < |s.data|
    ensures Reaches(cfg, events + [e], next) && f in next.nodes && l in next.nodes
    ensures next.nodes[l] == sys.nodes[l] && Receiver(next.nodes[f], l, sys.nodes[l].Term(), s)
    ensures InStep(next.nodes[f], s, End(s, offset))
    ensures Packet(f, l, Answer(sys.nodes[l].Term(), true, End(s, offset))) in next.net
  {
    hide Reaches, OnMessage, BecomeFollower, Sender;
    var w, term, end := sys.nodes[f], sys.nodes[l].Term(), End(s, offset);
    TakesChunk(w, l, term, s, offset);
    e, next := Deliver(cfg, events, sys, l, f, Chunk(term, l, s, offset));
    WholeChunks(s, offset);
    HoldingReceives(w, l, term, s, Some(IncomingSnapshot(s.metadata, s.data[..end])));
    assert Gathered(next.nodes[f], s, end);
  }

  /** From an offset where both agree, chunk by chunk to the end. */
  lemma {:induction false} Ship(cfg: Configuration, events: seq<Event>, sys: System, l: NodeId, f: NodeId,
                                s: PersistentSnapshot, offset: nat) returns (all: seq<Event>, last: System)
    requires Shipping(cfg, events, sys, l, f, s, offset) && InStep(sys.nodes[f], s, offset)
    ensures events <= all && Shipped(cfg, all, last, l, f, s, sys.nodes[l].Term())
    decreases |s.data| - offset
  {
    hide Reaches, OnMessage, Sender, Receiver, BecomeFollower, InStep;
    var w, term := sys.nodes[f], sys.nodes[l].Term();
    StepParts(w, l, term, s, offset);
    if End(s, offset) == |s.data| {
      TakesLast(w, l, term, s, offset);
      var e, next := Deliver(cfg, events, sys, l, f, Chunk(term, l, s, offset));
      all, last := events + [e], next;
    } else {
      var e, next := ChunkTaken(cfg, events, sys, l, f, s, offset);
      var d, again := AnswerBack(cfg, events + [e], next, l, f, s, true, End(s, offset));
      all, last := Ship(cfg, events + [e] + [d], again, l, f, s, End(s, offset));
    }
  }

  lemma StepParts(w: Node, l: NodeId, term: nat, s: PersistentSnapshot, offset: nat)
    requires Receiver(w, l, term, s) && InStep(w, s, offset)
    ensures offset < |s.data| && (Gathered(w, s, offset) || (offset == 0 && Elsewhere(w, s)))
    ensures w.appliedIndex == w.hardState.commitIndex
  {
  }

  /** A chunk the follower cannot use: the leader is sent to an offset where both agree,
      or to the start. */
  lemma Redirected(cfg: Configuration, events: seq<Event>, sys: System, l: NodeId, f: NodeId, s: PersistentSnapshot,
                   offset: nat) returns (all: seq<Event>, last: System, to: nat)
    requires Shipping(cfg, events, sys, l, f, s, offset) && !InStep(sys.nodes[f], s, offset)
    ensures events <= all && Shipping(cfg, all, last, l, f, s, to) && last.nodes[l].Term() == sys.nodes[l].Term()
    ensures to == 0 || InStep(last.nodes[f], s, to)
    ensures offset == 0 ==> InStep(last.nodes[f], s, to)
  {
    hide Reaches, OnMessage, Sender, BecomeFollower;
    var w, term := sys.nodes[f], sys.nodes[l].Term();
    Redirects(w, l, term, s, offset);
    var accepted, at: nat :|
      && OnMessage(w, l, Chunk(term, l, s, offset)).node == Holding(w, l, term, w.incomingSnapshot)
      && Send(l, Answer(term, accepted, at)) in OnMessage(w, l, Chunk(term, l, s, offset)).actions
      && (accepted ==> Gathered(w, s, at))
      && (offset == 0 ==> accepted);
    var e, next := Deliver(cfg, events, sys, l, f, Chunk(term, l, s, offset));
    HoldingReceives(w, l, term, s, w.incomingSnapshot);
    var d, again := AnswerBack(cfg, events + [e], next, l, f, s, accepted, at);
    all, last, to := events + [e] + [d], again, if accepted then at else 0;
    assert accepted ==> Gathered(last.nodes[f], s, at);
  }

  /** Wherever the leader starts and whatever whole chunks the follower has, of this snapshot
      or another, the run can go on to where the follower has installed the snapshot. */
  lemma Arrive(cfg: Configuration, events: seq<Event>, sys: System, l: NodeId, f: NodeId, s: PersistentSnapshot,
               offset: nat) returns (all: seq<Event>, last: System)
    requires Shipping(cfg, events, sys, l, f, s, offset)
    ensures events <= all && Shipped(cfg, all, last, l, f, s, sys.nodes[l].Term())
  {
    hide Shipping, Shipped, InStep;
    ShippingNodes(cfg, events, sys, l, f, s, offset);
    if InStep(sys.nodes[f], s, offset) {
      all, last := Ship(cfg, events, sys, l, f, s, offset);
    } else {
      var first, mid, to := Redirected(cfg, events, sys, l, f, s, offset);
      ShippingNodes(cfg, first, mid, l, f, s, to);
      if InStep(mid.nodes[f], s, to) {
        all, last := Ship(cfg, first, mid, l, f, s, to);
      } else {
        var second, end, from := Redirected(cfg, first, mid, l, f, s, to);
        all, last := Ship(cfg, second, end, l, f, s, from);
      }
    }
  }

  lemma ShippingNodes(cfg: Configuration, events: seq<Event>, sys: System, l: NodeId, f: NodeId, s: PersistentSnapshot,
                      offset: nat)
    requires Shipping(cfg, events, sys, l, f, s, offset)
    ensures l in sys.nodes && f in sys.nodes
  {
  }

  /** The last answer: the leader takes the follower to hold everything up to the snapshot. */
  lemma NotesArrival(b: Node, f: NodeId, s: PersistentSnapshot, i: nat)
    requires Sender(b, f, s)
    ensures var o := OnMessage(b, f, InstallSnapshotResponse(b.Term(), true, |s.data|, true, i)).node;
            && o.role == Leader && o.Term() == b.Term() && f in o.progress
            && o.progress[f].matchIndex >= i && o.progress[f].nextIndex > i && o.progress[f].snapshotOffset.None?
  {
    hide BecomeFollower, AdvanceLeaderCommit, SendAppend;
    var active := b.(recentActive := b.recentActive + {f});
    AdvanceKeepsRole(active.(progress := active.progress[f := Raised(active.progress[f], i)]));
  }

  /** Snapshot transfer completes: from any state of any run in which a chunk is under way
      from a leader to a follower that needs the snapshot, deliveries alone take the follower
      to the leader's snapshot and the leader to knowing it. */
  lemma TransferCompletes(cfg: Configuration, events: seq<Event>, sys: System, l: NodeId, f: NodeId,
                          s: PersistentSnapshot, offset: nat) returns (all: seq<Event>, last: System)
    requires Shipping(cfg, events, sys, l, f, s, offset)
    ensures events <= all && Reaches(cfg, all, last) && l in sys.nodes && l in last.nodes && f in last.nodes
    ensures Arrived(last.nodes[f], s, sys.nodes[l].Term())
    ensures var b := last.nodes[l];
            && b.role == Leader && b.Term() == sys.nodes[l].Term() && f in b.progress
            && b.progress[f].matchIndex >= s.metadata.lastIncludedIndex
            && b.progress[f].nextIndex > s.metadata.lastIncludedIndex && b.progress[f].snapshotOffset.None?
  {
    hide Reaches, OnMessage, Receiver, Shipping;
    ShippingNodes(cfg, events, sys, l, f, s, offset);
    var term, i := sys.nodes[l].Term(), s.metadata.lastIncludedIndex;
    var most, mid := Arrive(cfg, events, sys, l, f, s, offset);
    NotesArrival(mid.nodes[l], f, s, i);
    var e, end := Deliver(cfg, most, mid, f, l, InstallSnapshotResponse(term, true, |s.data|, true, i));
    all, last := most + [e], end;
    assert l != f;
  }
}
