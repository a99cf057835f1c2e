/** Receiving entries from a leader keeps the cluster invariant at every prefix. */
module RaftReplication {
  import opened Wrappers
  import opened Ordering
  import opened RaftTypes
  import opened RaftLog
  import opened RaftNode
  import opened RaftSafety
  import opened RaftCluster
  import opened RaftMoves
  import opened RaftElections
  import opened RaftVotes
  import StableStore

  /** A delivered append speaks for the leader of its term. */
  ghost predicate Delivered(past: Past, from: NodeId, m: Message) {
    && m.AppendEntries?
    && AppendOk(past, from, m) && Known(past, from, m.readContext)
    && (past.h.covering ==> Committed(past.h, past.h.logs[m.term], m.leaderCommit, m.term))
  }

  /** The echo of a read context proves how far the responder had moved. */
  lemma EchoHere(sys: System, past: Past, n: NodeId, leader: NodeId, context: Option<Bytes>)
    requires n in sys.nodes && SystemInv(sys, past)
    ensures EchoOk(past, leader, n, sys.nodes[n].Term(), context)
  {
    hide Inv, NodeOk, PacketOk;
    if context.Some? && past.watch.Covers(leader, context.value) {
      forall r | r in past.readings && Records(r, leader, context.value) && r.term == sys.nodes[n].Term()
        ensures n in Behind(r)
      {
        assert ReadOk(sys, past, r);
      }
    }
  }

  lemma RejectSafe(sys: System, past: Past, n: NodeId, from: NodeId, context: Option<Bytes>, ci: nat, ct: Option<nat>)
    requires n in sys.nodes && SystemInv(sys, past) && Known(past, from, context)
    ensures Safe(sys, past, n, RejectAppend(sys.nodes[n], from, context, ci, ct), sys.nodes[n], past)
  {
    hide SystemInv, Safe, EchoOk, Known;
    Participates(sys, past, n);
    EchoHere(sys, past, n, from, context);
    EmitSends(sys, past, n, RejectAppend(sys.nodes[n], from, context, ci, ct));
  }

  // -------------------------------------------------------------------- scanning

  /** Everything the scan of a batch establishes about the local log. */
  ghost predicate ScanResult(full: Log, leader: Log, commit: nat, m: Message, r: Scan) {
    m.AppendEntries? &&
    match r
    case Present => Agree(full, leader, m.prevLogIndex + |m.entries|)
    case Gap => true
    case Replaces(i) => i <= commit && i <= |leader| && !Agree(full, leader, i)
    case ChangedAt(i, p) =>
      && p < |m.entries| && i == m.prevLogIndex + p + 1 && i <= |full| + 1
      && Agree(full, leader, i - 1) && !Agree(full, leader, i)
      && (i <= |full| ==> commit < i)
  }

  lemma {:induction false} ScanOk(node: Node, full: Log, past: Past, from: NodeId, m: Message, p: nat)
    requires Describes(full, node) && LogInv(full, past.h)
    requires m.AppendEntries? && AppendOk(past, from, m) && WellFormed(past.h.logs[m.term])
    requires LogInv(past.h.logs[m.term], past.h)
    requires node.log.baseIndex <= m.prevLogIndex && p <= |m.entries|
    requires Agree(full, past.h.logs[m.term], m.prevLogIndex + p)
    ensures ScanResult(full, past.h.logs[m.term], node.hardState.commitIndex, m,
                       ScanFrom(node.log, node.hardState.commitIndex, m.entries, p))
    decreases |m.entries| - p
  {
    if p < |m.entries| {
      var l, e := past.h.logs[m.term], m.entries[p];
      var i := m.prevLogIndex + p + 1;
      assert e == l[i - 1] && e.index == i;
      TermLookup(node, full, i);
      if i <= |full| && full[i - 1].term == e.term {
        LogMatching(full, l, past.h, i - 1);
        ScanOk(node, full, past, from, m, p + 1);
      }
    }
  }

  /** The consistency check makes the local log agree with the leader's before the batch. */
  lemma PreviousAgrees(node: Node, full: Log, past: Past, from: NodeId, m: Message)
    requires Describes(full, node) && LogInv(full, past.h)
    requires m.AppendEntries? && AppendOk(past, from, m) && LogInv(past.h.logs[m.term], past.h)
    requires node.log.baseIndex <= m.prevLogIndex && node.log.Term(m.prevLogIndex) == Some(m.prevLogTerm)
    ensures Agree(full, past.h.logs[m.term], m.prevLogIndex)
  {
    TermLookup(node, full, m.prevLogIndex);
    if m.prevLogIndex > 0 {
      LogMatching(full, past.h.logs[m.term], past.h, m.prevLogIndex - 1);
    }
  }

  lemma ScanHere(sys: System, past: Past, n: NodeId, from: NodeId, m: Message)
    requires n in sys.nodes && m.AppendEntries?
    requires SystemInv(sys, past) && AppendOk(past, from, m) && sys.nodes[n].Term() == m.term
    requires sys.nodes[n].log.baseIndex <= m.prevLogIndex
             && sys.nodes[n].log.Term(m.prevLogIndex) == Some(m.prevLogTerm)
    ensures var node := sys.nodes[n];
            var r := ScanFrom(node.log, node.hardState.commitIndex, m.entries, 0);
            && ScanResult(FullLog(node.log, past.h.logs), past.h.logs[m.term], node.hardState.commitIndex, m, r)
            && (past.h.covering ==> !r.Replaces?)
  {
    hide SystemInv, Inv, NodeOk, Describes, FullLog, LogInv, ScanFrom, Agree, LogView.Term, WellFormed;
    EntriesShape(sys, past, n);
    var node := sys.nodes[n];
    var s := Abs(sys, past.h);
    var full, l := FullLog(node.log, past.h.logs), past.h.logs[m.term];
    LeaderLog(s, m.term);
    PreviousAgrees(node, full, past, from, m);
    ScanOk(node, full, past, from, m, 0);
    var r := ScanFrom(node.log, node.hardState.commitIndex, m.entries, 0);
    if past.h.covering && r.Replaces? {
      CommitBelowMismatch(s, n, r.index);
      assert false;
    }
  }

  lemma LeaderLog(s: State, t: nat)
    requires Inv(s) && t in s.h.logs
    ensures LogInv(s.h.logs[t], s.h) && WellFormed(s.h.logs[t]) && TermsBelow(s.h.logs[t], t + 1)
  {
    assert LeaderInv(s, t);
  }

  // --------------------------------------------------------------------- writing

  function Written(n: Node, i: nat, suffix: seq<LogEntry>): Node {
    n.(log := n.log.TruncateAndAppend(i, suffix))
  }

  lemma TruncatedFull(log: LogView, logs: map<nat, Log>, i: nat, suffix: seq<LogEntry>)
    requires |FullLog(log, logs)| == log.baseIndex + |log.entries|
    requires log.baseIndex < i <= log.baseIndex + |log.entries| + 1
    ensures FullLog(log.TruncateAndAppend(i, suffix), logs) == FullLog(log, logs)[..i - 1] + suffix
  {
    var base := FullLog(log.(entries := []), logs);
    assert FullLog(log, logs) == base + log.entries && |base| == log.baseIndex;
    assert FullLog(log, logs)[..i - 1] == base + log.entries[..i - 1 - log.baseIndex];
  }

  lemma SplicedPrefix(full: Log, leader: Log, i: nat, suffix: seq<LogEntry>)
    requires 0 < i <= |full| + 1 && i - 1 + |suffix| <= |leader| && Agree(full, leader, i - 1)
    requires forall k :: 0 <= k < |suffix| ==> suffix[k] == leader[i - 1 + k]
    ensures full[..i - 1] + suffix == leader[..i - 1 + |suffix|]
  {
  }

  lemma WrittenFull(node: Node, full: Log, logs: map<nat, Log>, leader: Log, i: nat, suffix: seq<LogEntry>)
    requires Describes(full, node) && full == FullLog(node.log, logs)
    requires node.log.baseIndex < i <= |full| + 1 && i - 1 + |suffix| <= |leader|
    requires Agree(full, leader, i - 1)
    requires forall k :: 0 <= k < |suffix| ==> suffix[k] == leader[i - 1 + k]
    ensures FullLog(Written(node, i, suffix).log, logs) == leader[..i - 1 + |suffix|]
  {
    hide Describes, FullLog, LogView.TruncateAndAppend, Agree;
    FullLength(node, full);
    TruncatedFull(node.log, logs, i, suffix);
    SplicedPrefix(full, leader, i, suffix);
  }

  lemma AdoptHere(sys: System, past: Past, n: NodeId, from: NodeId, m: Message, i: nat, p: nat) returns (h: History)
    requires n in sys.nodes && m.AppendEntries?
    requires SystemInv(sys, past) && AppendOk(past, from, m) && sys.nodes[n].Term() == m.term
             && sys.nodes[n].role == Follower
    requires sys.nodes[n].log.baseIndex <= m.prevLogIndex
    requires ScanResult(FullLog(sys.nodes[n].log, past.h.logs), past.h.logs[m.term],
                        sys.nodes[n].hardState.commitIndex, m, ChangedAt(i, p))
    ensures Extends(past.h, h) && h.logs == past.h.logs
    ensures Through(n, m.term, m.prevLogIndex + |m.entries|) <= h.acks
    ensures Inv(WithPeer(Abs(sys, past.h), n, PeerOf(Written(sys.nodes[n], i, m.entries[p..]), h.logs), h))
    ensures FullLog(Written(sys.nodes[n], i, m.entries[p..]).log, past.h.logs)
            == past.h.logs[m.term][..m.prevLogIndex + |m.entries|]
  {
    hide SystemInv, Inv, NodeOk, Describes, LogInv, LogView.TruncateAndAppend, Extends, FullLog;
    EntriesShape(sys, past, n);
    FullLength(sys.nodes[n], FullLog(sys.nodes[n].log, past.h.logs));
    var s := Abs(sys, past.h);
    var j := m.prevLogIndex + |m.entries|;
    CommitBeforeChange(sys, past, n, m, i, p);
    AdoptKeepsInv(s, n, j);
    h := Adopt(s, n, j).h;
    WrittenFull(sys.nodes[n], s.peers[n].log, past.h.logs, past.h.logs[m.term], i, m.entries[p..]);
  }

  lemma FullLength(node: Node, full: Log)
    requires Describes(full, node)
    ensures |full| == node.log.LastIndex() == node.log.baseIndex + |node.log.entries|
    ensures WellFormed(full) && TermsBelow(full, node.Term() + 1)
    ensures node.log.baseTerm == TermAt(full, node.log.baseIndex)
    ensures forall i :: 0 <= i < |node.log.entries| ==> node.log.entries[i] == full[node.log.baseIndex + i]
  {
  }

  lemma WrittenOk(cfg: Configuration, built: set<PersistentSnapshot>, past: Past, n: NodeId, node: Node, i: nat,
                  suffix: seq<LogEntry>)
    requires NodeOk(cfg, built, past, n, node) && node.role == Follower
    requires node.hardState.commitIndex < i <= node.log.baseIndex + |node.log.entries| + 1
    ensures NodeOk(cfg, built, past, n, Written(node, i, suffix))
  {
    forall c ensures PendingOk(past, Written(node, i, suffix), c) {
      assert PendingOk(past, node, c);
    }
  }

  /** The replacement suffix passes the store's checks. */
  lemma WriteAccepted(node: Node, full: Log, leader: Log, i: nat, suffix: seq<LogEntry>, a: Action)
    requires Describes(full, node) && WellFormed(leader) && StableStore.ValidIndexes(node.Stable())
    requires StableStore.LastIndex(node.Stable()) == node.log.LastIndex()
    requires StableStore.BaseIndex(node.Stable()) == node.log.baseIndex
    requires StableStore.BaseTerm(node.Stable()) == node.log.baseTerm
    requires node.hardState.commitIndex < i && node.log.baseIndex < i <= |full| + 1 && i - 1 + |suffix| <= |leader|
             && suffix != []
    requires Agree(full, leader, i - 1)
    requires forall k :: 0 <= k < |suffix| ==> suffix[k] == leader[i - 1 + k]
    requires a == WriteSuffix(node, i, suffix).actions[0]
    ensures StableStore.Execute(node.Stable(), a) == StableStore.Publish(Written(node, i, suffix).Stable())
  {
    hide StableStore.ValidIndexes, StableStore.Publish, WellFormed, LogView.LastTerm;
    FullLength(node, full);
    SuffixSequence(leader, i, suffix);
    var s := node.Stable();
    var keep := i - node.log.baseIndex - 1;
    var kept := s.(entries := s.entries[..keep]);
    assert StableStore.LastIndex(kept) + 1 == i && TailTerm(kept) == TermAt(leader, i - 1) by {
      TailOf(node, full, leader, i, kept);
    }
    assert StableStore.ValidEntrySequence(kept, suffix);
    if i > node.log.LastIndex() {
      assert s.entries[..keep] == s.entries;
    }
  }

  function TailTerm(s: StableState): nat {
    if s.entries == [] then StableStore.BaseTerm(s) else s.entries[|s.entries| - 1].term
  }

  lemma TailOf(node: Node, full: Log, leader: Log, i: nat, kept: StableState)
    requires Describes(full, node)
    requires StableStore.BaseIndex(node.Stable()) == node.log.baseIndex
    requires StableStore.BaseTerm(node.Stable()) == node.log.baseTerm
    requires node.log.baseIndex < i <= |full| + 1 && Agree(full, leader, i - 1)
    requires kept == node.Stable().(entries := node.log.entries[..i - node.log.baseIndex - 1])
    ensures StableStore.LastIndex(kept) + 1 == i && TailTerm(kept) == TermAt(leader, i - 1)
  {
  }

  lemma SuffixSequence(leader: Log, i: nat, suffix: seq<LogEntry>)
    requires WellFormed(leader) && 0 < i && i - 1 + |suffix| <= |leader|
    requires forall k :: 0 <= k < |suffix| ==> suffix[k] == leader[i - 1 + k]
    ensures StableStore.ValidSequence(suffix, i, TermAt(leader, i - 1))
    ensures suffix != [] ==> suffix[0].index == i
  {
    var top := if suffix == [] then 0 else leader[i - 2 + |suffix|].term;
    forall k | 0 <= k < |suffix| ensures suffix[k].index == i + k && TermAt(leader, i - 1) <= suffix[k].term <= top {
      assert i > 1 ==> Ordered(leader, i - 2, i - 1 + k);
      assert Ordered(leader, i - 1 + k, i - 2 + |suffix|);
    }
    forall j, k | 0 <= j <= k < |suffix| ensures suffix[j].term <= suffix[k].term {
      assert Ordered(leader, i - 1 + j, i - 1 + k);
    }
    SequenceValid(suffix, i, TermAt(leader, i - 1), top);
  }

  lemma WriteInv(sys: System, past: Past, n: NodeId, from: NodeId, m: Message, i: nat, p: nat, a: Action)
    returns (q: Past)
    requires n in sys.nodes && m.AppendEntries? && !a.Send?
    requires SystemInv(sys, past) && AppendOk(past, from, m) && sys.nodes[n].Term() == m.term
             && sys.nodes[n].role == Follower
    requires sys.nodes[n].log.baseIndex <= m.prevLogIndex
    requires ScanResult(FullLog(sys.nodes[n].log, past.h.logs), past.h.logs[m.term],
                        sys.nodes[n].hardState.commitIndex, m, ChangedAt(i, p))
    ensures q.h.logs == past.h.logs
    ensures Through(n, m.term, m.prevLogIndex + |m.entries|) <= q.h.acks
    ensures FullLog(Written(sys.nodes[n], i, m.entries[p..]).log, q.h.logs)
            == q.h.logs[m.term][..m.prevLogIndex + |m.entries|]
    ensures PastExtends(past, q) && SystemInv(After(sys, n, [a], Written(sys.nodes[n], i, m.entries[p..])), q)
  {
    hide SystemInv, Inv, NodeOk, Extends, Abs, PeerOf, WithPeer, PastExtends, After, FullLog,
         LogView.TruncateAndAppend, Through, LogView.LastIndex;
    var h := AdoptHere(sys, past, n, from, m, i, p);
    q := past.(h := h);
    SameReads(past, h);
    NodeFacts(sys, past, n, h);
    NodeOkExtends(sys.cfg, sys.built, past, q, n, sys.nodes[n]);
    CommitBeforeChange(sys, past, n, m, i, p);
    WrittenOk(sys.cfg, sys.built, q, n, sys.nodes[n], i, m.entries[p..]);
    MoveTo(sys, past, n, Written(sys.nodes[n], i, m.entries[p..]), h, a);
  }

  lemma CommitBeforeChange(sys: System, past: Past, n: NodeId, m: Message, i: nat, p: nat)
    requires n in sys.nodes && m.AppendEntries?
    requires SystemInv(sys, past) && m.term in past.h.logs && sys.nodes[n].Term() == m.term
    requires ScanResult(FullLog(sys.nodes[n].log, past.h.logs), past.h.logs[m.term],
                        sys.nodes[n].hardState.commitIndex, m, ChangedAt(i, p))
    ensures sys.nodes[n].hardState.commitIndex < i <= sys.nodes[n].log.baseIndex + |sys.nodes[n].log.entries| + 1
    ensures sys.nodes[n].log.baseIndex < i
  {
    hide Inv, NodeOk, PacketOk, ReadOk, FullLog;
    EntriesShape(sys, past, n);
    FullLength(sys.nodes[n], FullLog(sys.nodes[n].log, past.h.logs));
    BaseBelowCommit(sys, past, n);
    CommitBounded(sys, past, n);
  }

  lemma BaseBelowCommit(sys: System, past: Past, n: NodeId)
    requires n in sys.nodes && SystemInv(sys, past)
    ensures sys.nodes[n].log.baseIndex <= sys.nodes[n].appliedIndex <= sys.nodes[n].hardState.commitIndex
  {
    hide Inv, PacketOk, ReadOk;
    assert NodeOk(sys.cfg, sys.built, past, n, sys.nodes[n]);
  }

  lemma WriteSafe(sys: System, past: Past, n: NodeId, from: NodeId, m: Message, i: nat, p: nat) returns (q: Past)
    requires n in sys.nodes && m.AppendEntries?
    requires SystemInv(sys, past) && AppendOk(past, from, m) && sys.nodes[n].Term() == m.term
             && sys.nodes[n].role == Follower
    requires sys.nodes[n].log.baseIndex <= m.prevLogIndex
    requires ScanResult(FullLog(sys.nodes[n].log, past.h.logs), past.h.logs[m.term],
                        sys.nodes[n].hardState.commitIndex, m, ChangedAt(i, p))
    ensures q.h.logs == past.h.logs
    ensures Through(n, m.term, m.prevLogIndex + |m.entries|) <= q.h.acks
    ensures FullLog(Written(sys.nodes[n], i, m.entries[p..]).log, q.h.logs)
            == q.h.logs[m.term][..m.prevLogIndex + |m.entries|]
    ensures var o := WriteSuffix(sys.nodes[n], i, m.entries[p..]); Safe(sys, past, n, o.actions, o.node, q)
  {
    hide SystemInv, Safe, Inv, PastExtends, FullLog, Through, Agree, StableStore.Execute, StableStore.Publish,
         StableStore.ValidIndexes, LogView.TruncateAndAppend, After, ActionOk;
    var o := WriteSuffix(sys.nodes[n], i, m.entries[p..]);
    var a := o.actions[0];
    q := WriteInv(sys, past, n, from, m, i, p, a);
    WriteAcceptedHere(sys, past, n, from, m, i, p, a);
    assert ActionOk(q, n, a) by { PersistOk(q, n, a); }
    Durable(sys, past, n, a, o.node, q);
    assert o.actions == [a];
  }

  lemma PersistOk(past: Past, n: NodeId, a: Action)
    requires a.Persist?
    ensures ActionOk(past, n, a)
  {
  }

  lemma WriteAcceptedHere(sys: System, past: Past, n: NodeId, from: NodeId, m: Message, i: nat, p: nat, a: Action)
    requires n in sys.nodes && m.AppendEntries?
    requires SystemInv(sys, past) && AppendOk(past, from, m) && sys.nodes[n].Term() == m.term
    requires ScanResult(FullLog(sys.nodes[n].log, past.h.logs), past.h.logs[m.term],
                        sys.nodes[n].hardState.commitIndex, m, ChangedAt(i, p))
    requires a == WriteSuffix(sys.nodes[n], i, m.entries[p..]).actions[0]
    ensures StableStore.Execute(sys.nodes[n].Stable(), a)
            == StableStore.Publish(Written(sys.nodes[n], i, m.entries[p..]).Stable())
  {
    hide SystemInv, Inv, NodeOk, Describes, LogInv, FullLog, WellFormed, TermsBelow, WriteSuffix, Written,
         StableStore.Execute, StableStore.Publish, StableStore.ValidIndexes, LogView.LastIndex;
    EntriesShape(sys, past, n);
    StableValid(sys, past, n);
    LeaderLog(Abs(sys, past.h), m.term);
    CommitBeforeChange(sys, past, n, m, i, p);
    WriteAccepted(sys.nodes[n], FullLog(sys.nodes[n].log, past.h.logs), past.h.logs[m.term], i, m.entries[p..], a);
  }

  // ------------------------------------------------------------------- finishing

  /** The batch is in the log and acknowledged. */
  ghost predicate Matched(past: Past, n: NodeId, node: Node, m: Message) {
    && m.AppendEntries? && m.term in past.h.logs && node.Term() == m.term
    && Agree(FullLog(node.log, past.h.logs), past.h.logs[m.term], m.prevLogIndex + |m.entries|)
    && Through(n, m.term, m.prevLogIndex + |m.entries|) <= past.h.acks
  }

  lemma LearnHere(sys: System, past: Past, n: NodeId, m: Message, c: nat)
    requires n in sys.nodes && m.AppendEntries?
    requires SystemInv(sys, past) && sys.nodes[n].role == Follower && Matched(past, n, sys.nodes[n], m)
    requires c <= m.leaderCommit && c <= sys.nodes[n].log.LastIndex()
    requires m.term in past.h.reach && m.leaderCommit <= past.h.reach[m.term]
    requires past.h.covering ==>
               Committed(past.h, past.h.logs[m.term], m.leaderCommit, m.term) && c <= m.prevLogIndex + |m.entries|
    ensures var s := Abs(sys, past.h); Inv(WithPeer(s, n, s.peers[n].(commit := c), past.h))
  {
    hide SystemInv, Inv, FullLog, Committed, LogView.LastIndex;
    AbsInv(sys, past);
    LogEnds(sys, past, n);
    var s := Abs(sys, past.h);
    if past.h.covering {
      CommittedPrefix(past.h, past.h.logs[m.term], m.leaderCommit, c, m.term);
    }
    LearnKeepsInv(s, n, c);
  }

  /** What finishing the append commits is in the batch, or was committed before. */
  predicate Bounded(node: Node, m: Message)
    requires m.AppendEntries?
  {
    Lesser(m.leaderCommit, node.log.LastIndex()) <= Greater(node.hardState.commitIndex, m.prevLogIndex + |m.entries|)
  }

  lemma FinishSafe(sys: System, past: Past, n: NodeId, from: NodeId, m: Message)
    requires n in sys.nodes && m.AppendEntries?
    requires SystemInv(sys, past) && sys.nodes[n].role == Follower && Matched(past, n, sys.nodes[n], m)
    requires Delivered(past, from, m) && (past.h.covering ==> Bounded(sys.nodes[n], m))
    ensures var o := FinishAppend(sys.nodes[n], from, m); Safe(sys, past, n, o.actions, o.node, past)
  {
    hide SystemInv, Safe, Inv, Agree, FullLog, Through, Delivered, Abs, WithPeer, Extends, LogView.LastIndex, SetCommit;
    var node := sys.nodes[n];
    var last := node.log.LastIndex();
    var c := if m.leaderCommit <= last then m.leaderCommit else last;
    var o := SetCommit(node, c);
    DeliveredFacts(past, from, m);
    if c <= node.hardState.commitIndex {
      CommitStays(node, c);
      EmitNothing(sys, past, n);
    } else {
      LearnHere(sys, past, n, m, c);
      ExtendsReflexive(past.h);
      SetCommitSafe(sys, past, n, c, past.h);
    }
    MidInv(sys, past, n, o, past);
    CommitKeepsTerm(node, c);
    AckSafe(After(sys, n, o.actions, o.node), past, n, from, m);
    Then2(sys, past, n, o, past, Out(o.node, [AckReply(o.node, from, m)]), past);
  }

  function AckReply(node: Node, from: NodeId, m: Message): Action
    requires m.AppendEntries?
  {
    Send(from, AppendEntriesResponse(node.Term(), true, m.prevLogIndex + |m.entries|, 0, None, m.readContext))
  }

  lemma DeliveredFacts(past: Past, from: NodeId, m: Message)
    requires Delivered(past, from, m)
    ensures m.term in past.h.logs
    ensures past.h.covering ==> Committed(past.h, past.h.logs[m.term], m.leaderCommit, m.term)
    ensures AppendOk(past, from, m) && Known(past, from, m.readContext)
  {
  }

  lemma ExtendsReflexive(h: History)
    ensures Extends(h, h)
  {
  }

  lemma CommitStays(node: Node, c: nat)
    requires c <= node.hardState.commitIndex
    ensures SetCommit(node, c) == Out(node, [])
  {
  }

  lemma CommitKeepsTerm(node: Node, c: nat)
    ensures SetCommit(node, c).node.Term() == node.Term()
  {
    ApplyKeepsRole(node.(hardState := node.hardState.(commitIndex := c)));
  }

  lemma AckSafe(sys: System, past: Past, n: NodeId, from: NodeId, m: Message)
    requires n in sys.nodes && m.AppendEntries? && sys.nodes[n].Term() == m.term
    requires SystemInv(sys, past)
    requires Through(n, m.term, m.prevLogIndex + |m.entries|) <= past.h.acks && Known(past, from, m.readContext)
    ensures Safe(sys, past, n, [AckReply(sys.nodes[n], from, m)], sys.nodes[n], past)
  {
    hide SystemInv, Safe, EchoOk, Through;
    Participates(sys, past, n);
    EchoHere(sys, past, n, from, m.readContext);
    EmitSends(sys, past, n, [AckReply(sys.nodes[n], from, m)]);
  }

  /** Acknowledging a batch that is already in the log. */
  lemma PresentSafe(sys: System, past: Past, n: NodeId, from: NodeId, m: Message) returns (q: Past)
    requires n in sys.nodes && m.AppendEntries?
    requires SystemInv(sys, past) && sys.nodes[n].role == Follower && sys.nodes[n].Term() == m.term
    requires Delivered(past, from, m) && (past.h.covering ==> Bounded(sys.nodes[n], m))
    requires m.term in past.h.logs
             && Agree(FullLog(sys.nodes[n].log, past.h.logs), past.h.logs[m.term], m.prevLogIndex + |m.entries|)
    ensures var o := FinishAppend(sys.nodes[n], from, m); Safe(sys, past, n, o.actions, o.node, q)
  {
    hide SystemInv, Safe, Delivered, FinishAppend, Matched;
    q := AcknowledgeSafe(sys, past, n, m.prevLogIndex + |m.entries|);
    var a := Out(sys.nodes[n], []);
    MidInv(sys, past, n, a, q);
    DeliveredExtends(past, q, from, m);
    MatchedHere(past, q, n, sys.nodes[n], m);
    FinishSafe(After(sys, n, [], sys.nodes[n]), q, n, from, m);
    Then2(sys, past, n, a, q, FinishAppend(sys.nodes[n], from, m), q);
    assert Then(a, FinishAppend(sys.nodes[n], from, m)) == FinishAppend(sys.nodes[n], from, m);
  }

  lemma MatchedHere(past: Past, q: Past, n: NodeId, node: Node, m: Message)
    requires m.AppendEntries? && node.Term() == m.term && m.term in past.h.logs
    requires Agree(FullLog(node.log, past.h.logs), past.h.logs[m.term], m.prevLogIndex + |m.entries|)
    requires q.h.logs == past.h.logs
    requires Through(n, m.term, m.prevLogIndex + |m.entries|) <= q.h.acks
    ensures Matched(q, n, node, m)
  {
  }

  lemma AcknowledgeSafe(sys: System, past: Past, n: NodeId, i: nat) returns (q: Past)
    requires n in sys.nodes
    requires SystemInv(sys, past) && sys.nodes[n].Term() in past.h.logs
    requires Agree(FullLog(sys.nodes[n].log, past.h.logs), past.h.logs[sys.nodes[n].Term()], i)
    ensures q.h.logs == past.h.logs
    ensures Through(n, sys.nodes[n].Term(), i) <= q.h.acks
    ensures Safe(sys, past, n, [], sys.nodes[n], q)
  {
    hide SystemInv, Safe, Inv, Extends, FullLog, Agree, NodeOk, ReadOk, PacketsOk, PastExtends;
    AbsInv(sys, past);
    var s := Abs(sys, past.h);
    AcknowledgeKeepsInv(s, n, i);
    var h := Acknowledge(s, n, i).h;
    q := past.(h := h);
    SameReads(past, h);
    NodeFacts(sys, past, n, h);
    NodeOkExtends(sys.cfg, sys.built, past, q, n, sys.nodes[n]);
    NoPackets(sys, q, n, []);
    Move(sys, past, n, sys.nodes[n], q, []);
    Silent(sys, past, n, sys.nodes[n], q);
  }

  lemma DeliveredExtends(p: Past, q: Past, from: NodeId, m: Message)
    requires Delivered(p, from, m) && PastExtends(p, q)
    ensures Delivered(q, from, m)
  {
    assert SameLeader(p.h, q.h, m.term) && Grows(p.h, q.h, m.term) && Raises(p.h, q.h, m.term);
    if p.h.covering {
      CommittedExtends(p.h, q.h, p.h.logs[m.term], m.leaderCommit, m.term, m.term);
      CommittedTransfer(q.h, p.h.logs[m.term], q.h.logs[m.term], m.leaderCommit, m.term);
    }
  }

  lemma ChangedSafe(sys: System, past: Past, n: NodeId, from: NodeId, m: Message, i: nat, p: nat) returns (q: Past)
    requires n in sys.nodes && m.AppendEntries?
    requires SystemInv(sys, past) && sys.nodes[n].role == Follower && sys.nodes[n].Term() == m.term
    requires Delivered(past, from, m) && sys.nodes[n].log.baseIndex <= m.prevLogIndex
    requires m.term in past.h.logs
    requires ScanResult(FullLog(sys.nodes[n].log, past.h.logs), past.h.logs[m.term],
                        sys.nodes[n].hardState.commitIndex, m, ChangedAt(i, p))
    ensures var w := WriteSuffix(sys.nodes[n], i, m.entries[p..]);
            var o := Then(w, FinishAppend(w.node, from, m)); Safe(sys, past, n, o.actions, o.node, q)
  {
    hide SystemInv, Safe, Delivered, FinishAppend, Matched, FullLog, Agree, Through, LogView.TruncateAndAppend;
    DeliveredFacts(past, from, m);
    q := WriteSafe(sys, past, n, from, m, i, p);
    var w := WriteSuffix(sys.nodes[n], i, m.entries[p..]);
    MidInv(sys, past, n, w, q);
    DeliveredExtends(past, q, from, m);
    MatchedHere(q, q, n, w.node, m);
    WrittenBounded(After(sys, n, w.actions, w.node), q, n, past.h.logs[m.term], m);
    FinishSafe(After(sys, n, w.actions, w.node), q, n, from, m);
    Then2(sys, past, n, w, q, FinishAppend(w.node, from, m), q);
  }

  /** After writing a batch the log ends with it. */
  lemma WrittenBounded(sys: System, past: Past, n: NodeId, leader: Log, m: Message)
    requires n in sys.nodes && m.AppendEntries? && m.prevLogIndex + |m.entries| <= |leader|
    requires SystemInv(sys, past) && FullLog(sys.nodes[n].log, past.h.logs) == leader[..m.prevLogIndex + |m.entries|]
    ensures Bounded(sys.nodes[n], m)
  {
    hide SystemInv, FullLog, LogView.LastIndex;
    LogEnds(sys, past, n);
  }

  lemma CheckPreviousSafe(sys: System, past: Past, n: NodeId, from: NodeId, m: Message) returns (q: Past)
    requires n in sys.nodes && m.AppendEntries?
    requires SystemInv(sys, past) && sys.nodes[n].role == Follower && sys.nodes[n].Term() == m.term
    requires Delivered(past, from, m) && (past.h.covering ==> !Overcommits(sys.nodes[n], m))
    ensures var o := CheckPrevious(sys.nodes[n], from, m); Safe(sys, past, n, o.actions, o.node, q)
  {
    hide SystemInv, Safe, Delivered, FinishAppend, WriteSuffix, FullLog, Agree, ScanFrom, RejectAppend,
         ValidEntrySequence, LogView.FirstIndexOfTerm, LogView.LastIndex, LogView.Term, AppendOk;
    DeliveredFacts(past, from, m);
    var node := sys.nodes[n];
    var local := node.log.Term(m.prevLogIndex);
    q := past;
    if m.prevLogIndex < node.log.baseIndex {
      RejectSafe(sys, past, n, from, m.readContext, node.log.baseIndex + 1, Some(node.log.baseTerm));
    } else if local.None? {
      RejectSafe(sys, past, n, from, m.readContext, node.log.LastIndex() + 1, None);
    } else if local.value != m.prevLogTerm {
      RejectSafe(sys, past, n, from, m.readContext, node.log.FirstIndexOfTerm(m.prevLogIndex, local.value), local);
    } else if !ValidEntrySequence(m.prevLogIndex, m.prevLogTerm, m.term, m.entries) {
      RejectSafe(sys, past, n, from, m.readContext, m.prevLogIndex + 1, None);
    } else {
      ScanHere(sys, past, n, from, m);
      var r := ScanFrom(node.log, node.hardState.commitIndex, m.entries, 0);
      match r
      case Gap =>
        RejectSafe(sys, past, n, from, m.readContext, node.log.LastIndex() + 1, None);
      case Present =>
        q := PresentSafe(sys, past, n, from, m);
      case ChangedAt(i, p) =>
        q := ChangedSafe(sys, past, n, from, m, i, p);
      case Replaces(index) =>
        Emit(sys, past, n, [Fatal(ReplacedCommitted(index))]);
    }
  }

  lemma OnAppendEntriesSafe(sys: System, past: Past, n: NodeId, from: NodeId, m: Message) returns (q: Past)
    requires n in sys.nodes && m.AppendEntries?
    requires SystemInv(sys, past) && Delivered(past, from, m) && (past.h.covering ==> !Overcommits(sys.nodes[n], m))
    ensures var o := OnAppendEntries(sys.nodes[n], from, m); Safe(sys, past, n, o.actions, o.node, q)
  {
    hide SystemInv, Safe, Delivered, CheckPrevious, RejectAppend, AppendOk;
    DeliveredFacts(past, from, m);
    var node := sys.nodes[n];
    q := past;
    if m.leaderId != from {
      EmitNothing(sys, past, n);
    } else if m.term < node.Term() {
      RejectSafe(sys, past, n, from, m.readContext, node.log.LastIndex() + 1, None);
    } else {
      FollowThen(sys, past, n, m.term, Some(from), [ResetElectionTimer]);
      var f := BecomeFollower(node, m.term, Some(from));
      var b := Then(f, Out(f.node, [ResetElectionTimer]));
      MidInv(sys, past, n, b, past);
      q := CheckPreviousSafe(After(sys, n, b.actions, b.node), past, n, from, m);
      Then2(sys, past, n, b, past, CheckPrevious(b.node, from, m), q);
    }
  }
}
