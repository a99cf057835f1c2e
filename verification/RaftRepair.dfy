/** Log repair: a rejection takes the leader back, but never below where the logs agree. */
module RaftRepair {
  import opened Wrappers
  import opened Ordering
  import opened RaftTypes
  import opened RaftLog
  import opened RaftNode
  import opened RaftSafety
  import opened RaftCluster
  import opened RaftMoves
  import opened RaftElections
  import opened RaftLeading
  import opened RaftTheorems
  import opened RaftPreVotes
  import StoreSafety

  // -------------------------------------------------------------------- log shapes

  /** Entries numbered on from the base, in terms that never fall. */
  predicate Shaped(log: LogView) {
    StoreSafety.Numbered(log.entries, log.baseIndex, log.baseTerm)
  }

  lemma ShapedHere(sys: System, past: Past, n: NodeId)
    requires SystemInv(sys, past) && n in sys.nodes
    ensures Shaped(sys.nodes[n].log)
  {
    hide SystemInv, NodeOk, Describes, LogInv, StableStore.ValidSequence, EntriesRecoverable, Inv, FullLog;
    var node := sys.nodes[n];
    EntriesShape(sys, past, n);
    EntriesSequence(node, FullLog(node.log, past.h.logs));
    StoreSafety.SequenceExactly(node.log.entries, node.log.baseIndex, node.log.baseTerm);
  }

  lemma TermsRise(log: LogView, i: nat, j: nat)
    requires Shaped(log) && i <= j && log.Term(i).Some? && log.Term(j).Some?
    ensures log.Term(i).value <= log.Term(j).value && j <= log.LastIndex()
  {
  }

  /** The last index of a term is at or after any index of that term, and is of that term. */
  lemma LastOfTerm(log: LogView, k: nat, term: nat)
    requires Shaped(log)
    ensures log.LastIndexOfTerm(term).Some? ==> log.Term(log.LastIndexOfTerm(term).value) == Some(term)
    ensures log.Term(k) == Some(term) ==> log.LastIndexOfTerm(term).Some? && log.LastIndexOfTerm(term).value >= k
  {
    LastAmong(log.entries, term);
    var found := LastEntryOfTerm(log.entries, term);
    if found.Some? {
      var i :| 0 <= i < |log.entries| && log.entries[i] == found.value
               && forall j :: i < j < |log.entries| ==> log.entries[j].term != term;
    }
  }

  lemma {:induction false} LastAmong(entries: seq<LogEntry>, term: nat)
    ensures var e := LastEntryOfTerm(entries, term);
            if e.None? then forall i :: 0 <= i < |entries| ==> entries[i].term != term
            else e.value.term == term
                 && exists i :: 0 <= i < |entries| && entries[i] == e.value
                      && forall j :: i < j < |entries| ==> entries[j].term != term
    decreases |entries|
  {
    if entries != [] {
      var n := |entries| - 1;
      if entries[n].term == term {
        assert entries[n] == LastEntryOfTerm(entries, term).value;
      } else {
        var init := entries[..n];
        LastAmong(init, term);
        if LastEntryOfTerm(init, term).Some? {
          var i :| 0 <= i < |init| && init[i] == LastEntryOfTerm(init, term).value
                   && forall j :: i < j < |init| ==> init[j].term != term;
          assert entries[i] == init[i];
          forall j | i < j < |entries| ensures entries[j].term != term {
            assert j < n ==> entries[j] == init[j];
          }
        } else {
          forall i | 0 <= i < |entries| ensures entries[i].term != term {
            assert i < n ==> entries[i] == init[i];
          }
        }
      }
    }
  }

  // --------------------------------------------------------------------- rejections

  /** The logs have one term at the index. */
  predicate Agree(a: LogView, b: LogView, k: nat) {
    a.Term(k).Some? && a.Term(k) == b.Term(k)
  }

  predicate Rejection(m: Message) {
    m.AppendEntriesResponse? && !m.success
  }

  /** What a rejection says about the follower's log and the entry before the batch. */
  predicate Explains(f: LogView, prev: nat, r: Message)
    requires Rejection(r)
  {
    || (r.conflictTerm.None? && r.conflictIndex == f.LastIndex() + 1)
    || (r.conflictTerm.None? && r.conflictIndex == prev + 1 && prev >= f.baseIndex)
    || (prev < f.baseIndex && r.conflictTerm == Some(f.baseTerm) && r.conflictIndex == f.baseIndex + 1)
    || (prev >= f.baseIndex && f.Term(prev).Some? && r.conflictTerm == f.Term(prev)
        && r.conflictIndex == f.FirstIndexOfTerm(prev, f.Term(prev).value))
  }

  lemma FollowerExplains(n: Node, from: NodeId, m: Message, r: Message)
    requires m.AppendEntries? && Rejection(r) && Send(from, r) in CheckPrevious(n, from, m).actions
    ensures Explains(n.log, m.prevLogIndex, r)
  {
    hide ScanFrom, ValidEntrySequence, LogView.Term, LogView.LastIndex, LogView.FirstIndexOfTerm,
         LogView.TruncateAndAppend, SetCommit;
    FinishAccepts(n, from, m, r);
    var scan := ScanFrom(n.log, n.hardState.commitIndex, m.entries, 0);
    if scan.ChangedAt? {
      var p := scan.position;
      FinishAccepts(WriteSuffix(n, scan.index, m.entries[if p <= |m.entries| then p else |m.entries|..]).node, from, m,
                    r);
    }
  }

  lemma FinishAccepts(n: Node, from: NodeId, m: Message, r: Message)
    requires m.AppendEntries? && Rejection(r)
    ensures Send(from, r) !in FinishAppend(n, from, m).actions
  {
    hide SetCommit, LogView.LastIndex;
    var last := n.log.LastIndex();
    CommitSilent(n, if m.leaderCommit <= last then m.leaderCommit else last);
  }

  lemma CommitSilent(n: Node, commit: nat)
    ensures forall a :: a in SetCommit(n, commit).actions ==> !a.Send?
  {
    hide LogView.LastIndex, ApplyCommitted;
    ApplySilent(n.(hardState := n.hardState.(commitIndex := commit)));
  }

  lemma {:induction false} ApplySilent(n: Node)
    ensures forall a :: a in ApplyCommitted(n).actions ==> !a.Send?
    decreases n.hardState.commitIndex - n.appliedIndex
  {
    hide LogView.Entry;
    if n.appliedIndex < n.hardState.commitIndex && n.log.Entry(n.appliedIndex + 1).Some? {
      ApplySilent(n.(appliedIndex := n.appliedIndex + 1));
    }
  }

  lemma FollowSilent(n: Node, term: nat, leader: Option<NodeId>)
    ensures forall a :: a in BecomeFollower(n, term, leader).actions ==> !a.Send?
    ensures BecomeFollower(n, term, leader).node.log == n.log
  {
    hide Sorted;
  }

  lemma StepExplains(n: Node, from: NodeId, m: Message, r: Message)
    requires m.AppendEntries? && Rejection(r) && Send(from, r) in Step(n, Receive(from, m)).actions
    ensures Explains(n.log, m.prevLogIndex, r)
  {
    hide ApplyCommitted, Step, CheckPrevious, BecomeFollower, LogView.LastIndex, LogView.Term,
         LogView.FirstIndexOfTerm, Rejection;
    ApplyKeepsRole(n);
    ApplySilent(n);
    StepSplit(n, Receive(from, m));
    var x := ApplyCommitted(n).node;
    assert Send(from, r) in OnMessage(x, from, m).actions;
    FollowSilent(x, m.term, Some(from));
    var f := BecomeFollower(x, m.term, Some(from)).node;
    if m.leaderId == from && m.term >= x.Term() {
      FollowerExplains(f, from, m, r);
    }
  }

  // ----------------------------------------------------------------------- resuming

  /** Wherever the logs agree, up to the entry asked about or the follower's base, the
      leader resumes after it. */
  lemma ResumesAbove(l: Node, f: LogView, prev: nat, r: Message, k: nat)
    requires Shaped(l.log) && Shaped(f) && Rejection(r) && Explains(f, prev, r)
    requires Agree(l.log, f, k) && k <= Greater(prev, f.baseIndex)
    ensures ResumeIndex(l, r) > k
  {
    hide LogView.LastIndexOfTerm, LogView.FirstIndexOfTerm;
    assert k <= f.LastIndex() by { TermsRise(f, k, k); }
    if r.conflictTerm.Some? {
      var term := r.conflictTerm.value;
      LastOfTerm(l.log, k, term);
      if f.Term(k) != Some(term) {
        FirstIndexStartsRun(f, prev, term);
        assert k < r.conflictIndex;
        TermsRise(f, k, prev);
        var known := l.log.LastIndexOfTerm(term);
        if known.Some? && known.value < k {
          TermsRise(l.log, known.value, k);
        }
      }
    }
  }

  lemma LeaderResumes(l: Node, from: NodeId, r: Message)
    requires Rejection(r) && r.term == l.Term() && l.role == Leader && from in l.progress
    requires l.configuration.Contains(from) && from != l.id
    ensures var o := Step(l, Receive(from, r)).node;
            && from in o.progress && o.role == Leader && o.log == l.log
            && o.progress[from].nextIndex == Lowered(l.progress[from], ResumeIndex(l, r)).nextIndex
  {
    hide ApplyCommitted, Step, BecomeFollower, SendAppend, Configuration.Quorum, LogView.LastIndexOfTerm;
    ApplyKeepsRole(l);
    StepSplit(l, Receive(from, r));
    var x := ApplyCommitted(l).node;
    var active := x.(recentActive := x.recentActive + {from});
    if r.readContext.Some? {
      ReadKeepsNode(active, from, r.readContext.value);
    }
  }

  /** At `i` the follower rejects the append. */
  predicate RejectsAt(cfg: Configuration, events: seq<Event>, i: nat, l: NodeId, f: NodeId, m: Message, r: Message)
    requires ClusterRun(cfg, events)
  {
    && i < |events| && f in At(cfg, events, i).nodes && events[i].input == Receive(l, m) && m.AppendEntries?
    && Rejection(r) && SentAt(cfg, events, i, f, l, r)
  }

  /** At `j` the rejection reaches the leader, in its term and without a crash. */
  predicate HearsAt(cfg: Configuration, events: seq<Event>, j: nat, l: NodeId, f: NodeId, r: Message)
    requires ClusterRun(cfg, events)
  {
    && j < |events| && l in At(cfg, events, j).nodes && events[j] == Event(l, Receive(f, r), None) && l != f
    && Rejection(r) && At(cfg, events, j).nodes[l].role == Leader && At(cfg, events, j).nodes[l].Term() == r.term
  }

  /** The leader's log as it hears agrees at `k` with the follower's as it rejects, no further on than was asked. */
  predicate AgreedAt(cfg: Configuration, events: seq<Event>, i: nat, j: nat, l: NodeId, f: NodeId, prev: nat, k: nat)
    requires ClusterRun(cfg, events) && i <= |events| && j <= |events|
    requires f in At(cfg, events, i).nodes && l in At(cfg, events, j).nodes
  {
    var a, b := At(cfg, events, j).nodes[l].log, At(cfg, events, i).nodes[f].log;
    Agree(a, b, k) && k <= Greater(prev, b.baseIndex)
  }

  /** The leader's next index for the follower goes back, and not below `k + 1` but by one step. */
  predicate BacksTo(was: Node, now: Node, f: NodeId, k: nat) {
    && f in was.progress && f in now.progress
    && now.progress[f].nextIndex >= Lesser(k + 1, if was.progress[f].nextIndex == 0 then 0
                                                  else was.progress[f].nextIndex - 1)
    && (was.progress[f].nextIndex > 1 ==> now.progress[f].nextIndex < was.progress[f].nextIndex)
  }

  /** Repair, over every run: handling a rejection takes the leader's next index for the
      follower back, and never below an index where the leader's log agrees with the log the
      follower had when it rejected, except by one step at a time. */
  lemma RepairStopsAtAgreement(cfg: Configuration, events: seq<Event>, i: nat, j: nat, l: NodeId, f: NodeId,
                               m: Message, r: Message, k: nat)
    requires ClusterRun(cfg, events) && RejectsAt(cfg, events, i, l, f, m, r) && HearsAt(cfg, events, j, l, f, r)
    requires AgreedAt(cfg, events, i, j, l, f, m.prevLogIndex, k)
    ensures l in At(cfg, events, j + 1).nodes
    ensures BacksTo(At(cfg, events, j).nodes[l], At(cfg, events, j + 1).nodes[l], f, k)
  {
    hide ClusterRun, At, SentAt, ResumeIndex, Explains, Shaped, Lowered, Agree;
    FollowerSide(cfg, events, i, f, l, m, r);
    LeaderSide(cfg, events, j, l, f, r);
    var leader, follower := At(cfg, events, j).nodes[l], At(cfg, events, i).nodes[f];
    ResumesAbove(leader, follower.log, m.prevLogIndex, r, k);
    LowersTo(leader.progress[f], ResumeIndex(leader, r), k);
  }

  lemma LowersTo(p: Progress, next: nat, k: nat)
    requires p.nextIndex >= 1 && next > k
    ensures Lowered(p, next).nextIndex >= Lesser(k + 1, p.nextIndex - 1)
    ensures p.nextIndex > 1 ==> Lowered(p, next).nextIndex < p.nextIndex
  {
  }

  lemma FollowerSide(cfg: Configuration, events: seq<Event>, i: nat, f: NodeId, l: NodeId, m: Message, r: Message)
    requires ClusterRun(cfg, events) && i < |events| && f in At(cfg, events, i).nodes
    requires events[i].input == Receive(l, m) && m.AppendEntries? && Rejection(r) && SentAt(cfg, events, i, f, l, r)
    ensures var log := At(cfg, events, i).nodes[f].log;
            Shaped(log) && Explains(log, m.prevLogIndex, r) && f in cfg.participants
  {
    hide ClusterRun, At, Step, SystemInv, SentAt, Explains, Shaped;
    var p, q, end := Moments(cfg, events, false, NoRead, i, i);
    AtBacked(cfg, events, i);
    SentInStep(cfg, events, i, f, l, r);
    StepExplains(At(cfg, events, i).nodes[f], l, m, r);
    ShapedHere(At(cfg, events, i), p, f);
    KnownFollower(At(cfg, events, i), p, f);
  }

  lemma LeaderSide(cfg: Configuration, events: seq<Event>, j: nat, l: NodeId, f: NodeId, r: Message)
    requires ClusterRun(cfg, events) && j < |events| && events[j] == Event(l, Receive(f, r), None) && Rejection(r)
    requires l in At(cfg, events, j).nodes && f in cfg.participants && l != f
    requires At(cfg, events, j).nodes[l].role == Leader && At(cfg, events, j).nodes[l].Term() == r.term
    ensures l in At(cfg, events, j + 1).nodes
    ensures var was, now := At(cfg, events, j).nodes[l], At(cfg, events, j + 1).nodes[l];
            && f in was.progress && f in now.progress && Shaped(was.log) && was.progress[f].nextIndex >= 1
            && now.progress[f].nextIndex == Lowered(was.progress[f], ResumeIndex(was, r)).nextIndex
  {
    hide ClusterRun, At, Step, SystemInv, Next, Executed, Allowed, ResumeIndex, Shaped, Lowered;
    var sys := At(cfg, events, j);
    var p, q, end := Moments(cfg, events, false, NoRead, j, j);
    AtNext(cfg, events, j);
    AtBacked(cfg, events, j);
    Uncrashed(sys, events[j]);
    ShapedHere(sys, p, l);
    LeaderProgress(sys, p, l);
    NextPositive(sys, p, l, f);
    LeaderResumes(sys.nodes[l], f, r);
  }

  lemma SentInStep(cfg: Configuration, events: seq<Event>, i: nat, f: NodeId, l: NodeId, r: Message)
    requires ClusterRun(cfg, events) && SentAt(cfg, events, i, f, l, r) && f in At(cfg, events, i).nodes
    ensures i < |events| && Send(l, r) in Step(At(cfg, events, i).nodes[f], events[i].input).actions
  {
    hide ClusterRun, At, Step, Usable;
  }

  lemma KnownFollower(sys: System, past: Past, n: NodeId)
    requires SystemInv(sys, past) && n in sys.nodes
    ensures n in sys.cfg.participants
  {
  }

  lemma NextPositive(sys: System, past: Past, l: NodeId, f: NodeId)
    requires SystemInv(sys, past) && l in sys.nodes && sys.nodes[l].role == Leader && f in sys.nodes[l].progress
    ensures sys.nodes[l].progress[f].nextIndex >= 1
  {
    hide Inv, PacketOk, ReadOk;
    SendFacts(sys, past, l, f);
  }
}
