/** Where the step function promises less than the textbook protocol, exactly how much,
    and runs that show it. */
module RaftLimits {
  import opened Wrappers
  import opened Ordering
  import opened RaftTypes
  import opened RaftLog
  import opened RaftNode
  import opened RaftCluster
  import opened RaftMoves
  import opened RaftElections
  import opened RaftReplication
  import opened RaftTheorems
  import opened RaftRuns

  // ------------------------------------------------------------ follower commit

  predicate Shaped(n: Node) {
    && n.log.LastIndex() == n.log.baseIndex + |n.log.entries|
    && n.log.baseIndex <= n.appliedIndex <= n.hardState.commitIndex <= n.log.LastIndex()
  }

  lemma {:induction false} LastOfValid(previousIndex: nat, previousTerm: nat, top: nat, entries: seq<LogEntry>)
    requires ValidEntrySequence(previousIndex, previousTerm, top, entries) && entries != []
    ensures entries[|entries| - 1].index == previousIndex + |entries|
    decreases |entries|
  {
    if |entries| > 1 {
      LastOfValid(previousIndex + 1, entries[0].term, top, entries[1..]);
    }
  }

  lemma {:induction false} ChangeInside(log: LogView, commit: nat, entries: seq<LogEntry>, p: nat)
    requires p <= |entries|
    ensures var r := ScanFrom(log, commit, entries, p); r.ChangedAt? ==> r.position < |entries|
    decreases |entries| - p
  {
    if p < |entries| {
      ChangeInside(log, commit, entries, p + 1);
    }
  }

  /** After a write the log ends with the batch. */
  lemma WriteEnds(n: Node, m: Message, i: nat, p: nat)
    requires m.AppendEntries? && p < |m.entries|
    requires ValidEntrySequence(m.prevLogIndex, m.prevLogTerm, m.term, m.entries)
    ensures WriteSuffix(n, i, m.entries[p..]).node.log.LastIndex() == m.prevLogIndex + |m.entries|
  {
    LastOfValid(m.prevLogIndex, m.prevLogTerm, m.term, m.entries);
  }

  lemma FinishCommits(n: Node, from: NodeId, m: Message)
    requires m.AppendEntries?
    ensures FinishAppend(n, from, m).node.hardState.commitIndex
            == Greater(n.hardState.commitIndex, Lesser(m.leaderCommit, n.log.LastIndex()))
  {
    hide LogView.LastIndex;
    var c := Lesser(m.leaderCommit, n.log.LastIndex());
    ApplyKeepsRole(n.(hardState := n.hardState.(commitIndex := c)));
  }

  /** A follower commits beyond both the batch it was sent and what it had committed,
      which the commit rule of the Raft paper's Figure 2 forbids, exactly when a
      well-formed delivery overcommits. */
  lemma OvercommitsExactly(n: Node, from: NodeId, m: Message)
    requires m.AppendEntries? && m.leaderId == from && Shaped(n)
    ensures Greater(n.hardState.commitIndex, m.prevLogIndex + |m.entries|) < OnAppendEntries(n, from,
          m).node.hardState.commitIndex
            <==> Overcommits(n, m) && ValidEntrySequence(m.prevLogIndex, m.prevLogTerm, m.term, m.entries)
  {
    hide LogView.LastIndex, LogView.Term, ValidEntrySequence, ScanFrom, FinishAppend, RejectReads, Sorted,
         RejectAppend, WriteSuffix;
    if m.term >= n.Term() {
      var f := BecomeFollower(n, m.term, Some(from)).node;
      FinishCommits(f, from, m);
      ChangeInside(f.log, f.hardState.commitIndex, m.entries, 0);
      var r := ScanFrom(f.log, f.hardState.commitIndex, m.entries, 0);
      if r.ChangedAt? && ValidEntrySequence(m.prevLogIndex, m.prevLogTerm, m.term, m.entries) {
        WriteEnds(f, m, r.index, r.position);
        var w := WriteSuffix(f, r.index, m.entries[r.position..]).node;
        FinishCommits(w, from, m);
        WriteKeepsCommit(f, r.index, m.entries[r.position..]);
      }
    }
  }

  lemma WriteKeepsCommit(n: Node, i: nat, suffix: seq<LogEntry>)
    ensures WriteSuffix(n, i, suffix).node.hardState == n.hardState
  {
  }

  /** The batch covers the commit index it announces. */
  predicate Covers(m: Message) {
    m.AppendEntries? ==> m.leaderCommit <= m.prevLogIndex + |m.entries|
  }

  /** In every run, an append a leader sends covers the commit index it announces
      exactly when that index is within 64 entries of the batch's start; and an append
      that covers overcommits nobody. */
  lemma SentAppendCovers(cfg: Configuration, events: seq<Event>, i: nat, n: NodeId, peer: NodeId,
                         context: Option<Bytes>, m: Message)
    requires ClusterRun(cfg, events) && i <= |events| && n in At(cfg, events, i).nodes && m.AppendEntries?
    requires At(cfg, events, i).nodes[n].role == Leader
    requires Send(peer, m) in SendAppend(At(cfg, events, i).nodes[n], peer, context)
    ensures Covers(m) <==> At(cfg, events, i).nodes[n].hardState.commitIndex <= m.prevLogIndex + MAX_APPEND_ENTRIES
    ensures Covers(m) ==> forall f {:trigger Overcommits(f, m)} :: !Overcommits(f, m)
  {
    hide SystemInv, ClusterRun, At, Describes, NodeOk, FullLog, Leads, PastGrows, EmittedOk, CoveringRun, FreshRun,
         Initial;
    var p, _, _ := Moments(cfg, events, false, NoRead, i, i);
    var sys := At(cfg, events, i);
    var node := sys.nodes[n];
    LeaderFacts(sys, p, n);
    FullLength(node, FullLog(node.log, p.h.logs));
    CommitInLog(sys, p, n);
    BatchEnds(node, m.prevLogIndex + 1);
  }

  lemma CommitInLog(sys: System, past: Past, n: NodeId)
    requires n in sys.nodes
    requires SystemInv(sys, past)
    ensures sys.nodes[n].hardState.commitIndex <= sys.nodes[n].log.baseIndex + |sys.nodes[n].log.entries|
  {
    hide SystemInv;
    EntriesShape(sys, past, n);
  }

  /** A batch stops at the end of the log or after 64 entries. */
  lemma BatchEnds(node: Node, next: nat)
    requires node.log.LastIndex() == node.log.baseIndex + |node.log.entries|
    requires node.log.baseIndex < next <= node.log.LastIndex() + 1
    ensures next - 1 + |node.log.EntriesFrom(next, MAX_APPEND_ENTRIES)|
            == Lesser(node.log.LastIndex(), next - 1 + MAX_APPEND_ENTRIES)
  {
  }

  /** An overcommitting delivery makes the follower apply whatever it holds between the
      batch and the announced commit index, of whichever leader. */
  lemma ForeignEntryApplied(n: Node, from: NodeId, m: Message, k: nat)
    requires Overcommits(n, m) && m.leaderId == from && Shaped(n)
    requires ValidEntrySequence(m.prevLogIndex, m.prevLogTerm, m.term, m.entries)
    requires n.appliedIndex < k <= Lesser(m.leaderCommit, n.log.LastIndex())
    ensures Apply(n.log.entries[k - n.log.baseIndex - 1]) in OnAppendEntries(n, from, m).actions
  {
    hide LogView.LastIndex, ValidEntrySequence, ScanFrom, ApplyCommitted, RejectAppend;
    var f := BecomeFollower(n, m.term, Some(from)).node;
    var c := Lesser(m.leaderCommit, n.log.LastIndex());
    ApplyAll(f.(hardState := f.hardState.(commitIndex := c)));
    var e := Apply(n.log.entries[k - n.log.baseIndex - 1]);
    assert e in SetCommit(f, c).actions;
    assert e in FinishAppend(f, from, m).actions;
    assert e in CheckPrevious(f, from, m).actions;
  }
}
