/** Two runs of three voters, from their first boot: one in which a capped batch makes
    two nodes apply different entries, one in which an old answer completes a read below
    what was committed. */
module RaftAnomalies {
  import opened Wrappers
  import opened Ordering
  import opened RaftTypes
  import opened RaftLog
  import opened RaftNode
  import opened RaftCluster
  import RaftSafety
  import RaftVotes
  import opened RaftElections
  import opened RaftReplication
  import opened RaftLeading
  import opened RaftTheorems
  import opened RaftRuns
  import opened RaftLimits

  // ------------------------------------------------------------- filling the logs

  /** The leader with `k` more commands in its log. */
  function Filled(l: Node, k: nat): Node
    requires l.id in l.progress
  {
    var more := seq(k, (i: nat) => LogEntry(|l.log.entries| + 1 + i, l.Term(), Command(0, [])));
    var size := |l.log.entries| + k;
    l.(log := l.log.(entries := l.log.entries + more),
       progress := l.progress[l.id := l.progress[l.id].(matchIndex := size, nextIndex := size + 1)])
  }

  /** A leader alone with its log. */
  predicate Unmatched(l: Node, n: NodeId) {
    && Voter(l, n) && l.role == Leader && l.progress.Keys == {1, 2, 3}
    && l.progress[n].matchIndex == |l.log.entries| && l.progress[n].nextIndex == |l.log.entries| + 1
    && forall v :: v in l.progress && v != n ==> l.progress[v].matchIndex == 0
  }

  lemma FilledStays(l: Node, n: NodeId, k: nat)
    requires Unmatched(l, n)
    ensures Unmatched(Filled(l, k), n) && Idle(Filled(l, k)) && |Filled(l, k).log.entries| == |l.log.entries| + k
  {
    hide Configuration.QuorumIndex;
    var f := Filled(l, k);
    var b: NodeId := if n == 1 then 2 else 1;
    assert f.Matched().Keys == {1, 2, 3};
    QuorumAt(f.Matched(), n, b, 0);
  }

  lemma FilledOnce(l: Node, n: NodeId, k: nat)
    requires Unmatched(l, n)
    ensures var f := Filled(l, k);
            Extended(f, LogEntry(f.log.LastIndex() + 1, f.Term(), Command(0, []))) == Filled(l, k + 1)
  {
    hide Idle, Configuration.QuorumIndex, LogView.LastIndex;
    FilledStays(l, n, k);
    var f := Filled(l, k);
    PlainEnds(f.log);
    FilledFields(l, k, LogEntry(|l.log.entries| + k + 1, l.Term(), Command(0, [])));
  }

  lemma FilledFields(l: Node, k: nat, e: LogEntry)
    requires l.id in l.progress && e == LogEntry(|l.log.entries| + k + 1, l.Term(), Command(0, []))
    ensures Extended(Filled(l, k), e) == Filled(l, k + 1)
  {
    var x, y := Extended(Filled(l, k), e), Filled(l, k + 1);
    assert x.log.entries == y.log.entries;
    assert x.progress == y.progress;
  }

  /** The leader takes `k` proposals. */
  lemma {:induction false} Fill(t: Trace, n: NodeId, k: nat) returns (u: Trace)
    requires Good(Three(), t) && n in t.sys.nodes && Unmatched(t.sys.nodes[n], n)
    ensures Good(Three(), u) && Later(t, u) && u.sys.nodes == t.sys.nodes[n := Filled(t.sys.nodes[n], k)]
    decreases k
  {
    hide Good, Filled, Step, OnPropose, Idle;
    var l := t.sys.nodes[n];
    if k == 0 {
      FilledNone(l, n);
      u := t;
    } else {
      var a := Fill(t, n, k - 1);
      var f := Filled(l, k - 1);
      FilledStays(l, n, k - 1);
      FilledStays(l, n, k);
      FilledOnce(l, n, k - 1);
      TakesCommand(f, n);
      StepIsHandle(f, Propose(0, []));
      u := Go(Three(), a, n, Propose(0, []));
    }
  }

  lemma FilledNone(l: Node, n: NodeId)
    requires Unmatched(l, n)
    ensures Filled(l, 0) == l
  {
    assert Filled(l, 0).log.entries == l.log.entries;
    assert Filled(l, 0).progress == l.progress;
  }

  lemma TakesCommand(f: Node, n: NodeId)
    requires Unmatched(f, n)
    requires var e := LogEntry(f.log.LastIndex() + 1, f.Term(), Command(0, [])); Idle(Extended(f, e))
    ensures var e := LogEntry(f.log.LastIndex() + 1, f.Term(), Command(0, []));
            Settled(f) && OnPropose(f, 0, []).node == Extended(f, e)
  {
    hide Idle;
    TakesProposal(f, 0, []);
  }

  // ----------------------------------------------------------------- the capped batch

  /** The first 64 entries, all of term 1. */
  predicate Shared(e: seq<LogEntry>) {
    |e| == 64 && forall i :: 0 <= i < 64 ==> e[i].index == i + 1 && e[i].term == 1
  }

  predicate Holding(node: Node, n: NodeId, e: seq<LogEntry>, term: nat, role: Role) {
    Voter(node, n) && node.log.entries == e && node.Term() == term && node.role == role
      && node.hardState.commitIndex == 0
  }

  /** Node 1 has led term 1 and everyone holds its 64 entries, none committed. */
  predicate Agreed(t: Trace, e: seq<LogEntry>) {
    && Good(Three(), t) && Shared(e) && t.sys.nodes.Keys == {1, 2, 3}
    && Holding(t.sys.nodes[1], 1, e, 1, Leader) && Holding(t.sys.nodes[2], 2, e, 1, Follower)
       && Holding(t.sys.nodes[3], 3, e, 1, Follower)
  }

  lemma FirstElected()
    ensures var n := Elected(Boot(Three(), 1));
            Unmatched(n, 1) && n.Term() == 1 && n.log.entries == [LogEntry(1, 1, Noop)] && n.hardState.commitIndex == 0
            && n.progress[2].nextIndex == 2 && n.progress[3].nextIndex == 2
  {
    StartIsGood();
    ElectedIsIdle(Boot(Three(), 1), 1);
  }

  lemma FilledIsShared()
    ensures var b := Filled(Elected(Boot(Three(), 1)), 63);
            && Shared(b.log.entries) && Unmatched(b, 1) && b.Term() == 1 && b.hardState.commitIndex == 0
            && b.progress[2].nextIndex == 2 && b.progress[3].nextIndex == 2
  {
    hide Elected;
    FirstElected();
    FilledStays(Elected(Boot(Three(), 1)), 1, 63);
  }

  /** A follower that takes over a leader's uncommitted log. */
  lemma CopiedHolds(l: Node, f: Node, n: NodeId, e: seq<LogEntry>)
    requires Voter(f, n) && Voter(l, l.id) && l.log.entries == e
             && f.hardState.commitIndex == l.hardState.commitIndex == 0 && f.Term() <= l.Term()
    ensures Holding(Copied(l, f), n, e, l.Term(), Follower)
  {
    hide RejectReads, Sorted;
  }

  lemma Prepare() returns (t: Trace, e: seq<LogEntry>)
    ensures Agreed(t, e)
  {
    hide Good, Elected, Filled, Granted, Copied, LogView.LastTerm, LogView.LastIndex, BecomeFollower;
    StartIsGood();
    var n := Boot(Three(), 1);
    BootsElect();
    var a := Elect(Started(Three()), 1, 3);
    FirstElected();
    FilledIsShared();
    var b := Fill(a, 1, 63);
    var l, m := Filled(Elected(n), 63), FirstAppend(n);
    e := l.log.entries;
    SharedLags(l, Boot(Three(), 2), e);
    var c := Replicate(b, 1, 2, m);
    CopiedHolds(l, Boot(Three(), 2), 2, e);
    GrantedEmpty();
    var l2, g := Backed(l, 2, 1), Granted(Boot(Three(), 3), 1, 1);
    SharedLags(l2, g, e);
    t := Replicate(c, 1, 3, m);
    CopiedHolds(l2, g, 3, e);
  }

  lemma BootsElect()
    ensures MayElect(Started(Three()), 1, 3)
  {
    StartIsGood();
  }

  lemma GrantedEmpty()
    ensures var g := Granted(Boot(Three(), 3), 1, 1);
            Voter(g, 3) && g.log.entries == [] && g.Term() == 1 && g.hardState.commitIndex == 0
  {
    hide RejectReads, Sorted;
  }

  lemma SharedLags(l: Node, f: Node, e: seq<LogEntry>)
    requires Shared(e) && l.log.entries == e && f.log.entries == [] && l.Term() == 1 && f.Term() <= 1
             && f.hardState.commitIndex == 0
    ensures Lags(l, f)
  {
  }

  /** Node 2 kept an entry of term 2 after the shared ones; node 1 leads term 3 and has
      committed its own entry there. */
  predicate Diverged(t: Trace, e: seq<LogEntry>) {
    && Good(Three(), t) && Shared(e) && t.sys.nodes.Keys == {1, 2, 3}
    && Holding(t.sys.nodes[2], 2, e + [LogEntry(65, 2, Noop)], 2, Leader)
    && var l := t.sys.nodes[1];
       && Voter(l, 1) && l.role == Leader && l.Term() == 3 && l.log.entries == e + [LogEntry(65, 3, Noop)]
       && l.hardState.commitIndex == 65 && 2 in l.progress && l.progress[2].nextIndex == 66
       && (1, Apply(LogEntry(65, 3, Noop))) in t.out
       && Packet(1, 2, AppendEntries(3, 1, 65, 3, [], 0, None)) in t.sys.net
  }

  lemma SameLogElects(t: Trace, c: NodeId, v: NodeId, e: seq<LogEntry>, term: nat, role: Role)
    requires c in t.sys.nodes && v in t.sys.nodes && c != v && role != Leader
    requires Holding(t.sys.nodes[c], c, e, term, role) && Voter(t.sys.nodes[v], v)
    requires t.sys.nodes[v].log.entries == e && t.sys.nodes[v].Term() <= term
    ensures MayElect(t, c, v)
  {
  }

  lemma GrantedHolds(w: Node, v: NodeId, c: NodeId, e: seq<LogEntry>, term: nat)
    requires Voter(w, v) && w.log.entries == e && w.hardState.commitIndex == 0 && term > w.Term()
    ensures Holding(Granted(w, c, term), v, e, term, Follower)
  {
    hide RejectReads, Sorted;
  }

  lemma ElectedHolds(n: Node, c: NodeId, e: seq<LogEntry>, term: nat, role: Role)
    requires Holding(n, c, e, term, role)
    ensures Holding(Elected(n), c, e + [LogEntry(|e| + 1, term + 1, Noop)], term + 1, Leader)
  {
    ElectedIsIdle(n, c);
  }

  /** Node 2 leads term 2 without being heard, and costs node 1 its leadership. */
  lemma Depose(t: Trace, e: seq<LogEntry>) returns (u: Trace)
    requires Agreed(t, e)
    ensures Good(Three(), u) && u.sys.nodes.Keys == {1, 2, 3}
    ensures Holding(u.sys.nodes[1], 1, e, 2, Follower) && Holding(u.sys.nodes[3], 3, e, 2, Follower)
    ensures Holding(u.sys.nodes[2], 2, e + [LogEntry(65, 2, Noop)], 2, Leader)
  {
    hide Good, Elected, Granted, Step, OnMessage, BecomeFollower;
    var n1, n2, n3 := t.sys.nodes[1], t.sys.nodes[2], t.sys.nodes[3];
    SameLogElects(t, 2, 3, e, 1, Follower);
    var a := Elect(t, 2, 3);
    ElectedHolds(n2, 2, e, 1, Follower);
    GrantedHolds(n3, 3, 2, e, 2);
    var m := Ballot(n2);
    StepIsHandle(n1, Receive(2, m));
    GrantsVote(n1, 2, 2, n2.log.LastIndex(), n2.log.LastTerm());
    u := Go(Three(), a, 1, Receive(2, m));
    GrantedHolds(n1, 1, 2, e, 2);
  }

  lemma SharedBehindhand(n: Node, w: Node, e: seq<LogEntry>)
    requires Shared(e) && n.log.entries == e && w.log.entries == e && n.Term() >= 1
    ensures Behindhand(n, w)
  {
    assert e[..|e|] == e;
  }

  lemma Diverge(t: Trace, e: seq<LogEntry>) returns (u: Trace)
    requires Agreed(t, e)
    ensures Diverged(u, e)
  {
    hide Good, Leading, Following, LogView.LastTerm, LogView.LastIndex;
    var a := Depose(t, e);
    var n, w := a.sys.nodes[1], a.sys.nodes[3];
    SameLogElects(a, 1, 3, e, 2, Follower);
    SharedBehindhand(n, w, e);
    u := Lead(a, 1, 3);
    LeadingIs(n, 1, 3, w);
    assert Leading(n, 3, w).log.entries[64] == LogEntry(65, 3, Noop);
  }

  // ------------------------------------------------------------------ backing up

  lemma BackedTwice(l: Node, f: NodeId, a: nat, b: nat)
    requires f in l.progress
    ensures Backed(Backed(l, f, a), f, b) == Backed(l, f, b)
  {
    var x, y := Backed(Backed(l, f, a), f, b), Backed(l, f, b);
    assert x.recentActive == y.recentActive && x.progress == y.progress;
  }

  lemma {:induction false} TermAbsent(entries: seq<LogEntry>, term: nat)
    requires forall i :: 0 <= i < |entries| ==> entries[i].term != term
    ensures LastEntryOfTerm(entries, term).None?
    decreases |entries|
  {
    if entries != [] {
      TermAbsent(entries[..|entries| - 1], term);
    }
  }

  /** The rejection of an entry whose term the leader does not know. */
  function Refusal(): Message {
    AppendEntriesResponse(3, false, 0, 65, Some(2), None)
  }

  predicate Refused(l: Node, e: seq<LogEntry>) {
    && Voter(l, 1) && l.role == Leader && l.Term() == 3 && Shared(e) && l.log.entries == e + [LogEntry(65, 3, Noop)]
    && l.hardState.commitIndex == 65 && 2 in l.progress && l.progress[2].nextIndex == 66
  }

  /** Each duplicate of one rejection takes the leader one index further back. */
  lemma {:induction false} BackUp(t: Trace, e: seq<LogEntry>, next: nat) returns (u: Trace)
    requires Good(Three(), t) && 1 in t.sys.nodes && Refused(t.sys.nodes[1], e) && Packet(2, 1, Refusal()) in t.sys.net
    requires 1 <= next <= 65
    ensures Good(Three(), u) && Later(t, u) && u.sys.nodes == t.sys.nodes[1 := Backed(t.sys.nodes[1], 2, next)]
    ensures t.sys.nodes[1].log.Term(next - 1).Some? && Packet(1, 2, Batch(t.sys.nodes[1], next, None)) in u.sys.net
    decreases 65 - next
  {
    hide Good, Step, OnMessage, Batch, Lesser;
    var l := t.sys.nodes[1];
    PlainEnds(l.log);
    if next == 65 {
      RefusalBacks(l, l, e, next);
      StepIsHandle(l, Receive(2, Refusal()));
      u := Go(Three(), t, 1, Receive(2, Refusal()));
    } else {
      var a := BackUp(t, e, next + 1);
      var b := Backed(l, 2, next + 1);
      RefusalBacks(l, b, e, next);
      BackedTwice(l, 2, next + 1, next);
      StepIsHandle(b, Receive(2, Refusal()));
      u := Go(Three(), a, 1, Receive(2, Refusal()));
    }
  }

  lemma RefusalBacks(l: Node, b: Node, e: seq<LogEntry>, next: nat)
    requires Refused(l, e) && 1 <= next <= 65 && (if next == 65 then b == l else b == Backed(l, 2, next + 1))
    ensures var o := OnMessage(b, 2, Refusal());
            && l.log.Term(next - 1).Some? && Settled(b)
            && o.node == Backed(b, 2, next) && Send(2, Batch(l, next, None)) in o.actions
  {
    hide OnMessage;
    PlainEnds(l.log);
    TermAbsent(l.log.entries, 2);
    BacksUp(b, 2, Refusal(), next);
  }

  lemma RefusesStray(f: Node, e: seq<LogEntry>)
    requires Shared(e) && Holding(f, 2, e + [LogEntry(65, 2, Noop)], 2, Leader)
    ensures var o, b := OnMessage(f, 1, AppendEntries(3, 1, 65, 3, [], 0, None)), BecomeFollower(f, 3, Some(1)).node;
            && o.node == b && Send(1, Refusal()) in o.actions
            && Holding(b, 2, e + [LogEntry(65, 2, Noop)], 3, Follower)
  {
    hide RejectReads, Sorted, ValidEntrySequence, ScanFrom;
    var m := AppendEntries(3, 1, 65, 3, [], 0, None);
    PlainEnds(f.log);
    var b := BecomeFollower(f, 3, Some(1)).node;
    assert b.log.FirstIndexOfTerm(65, 2) == 65;
    assert CheckPrevious(b, 1, m).actions == [Send(1, Refusal())];
  }

  /** The capped batch: the first 64 entries, announcing 65. */
  function Capped(e: seq<LogEntry>): Message {
    AppendEntries(3, 1, 0, 0, e, 65, None)
  }

  lemma BatchIsCapped(l: Node, e: seq<LogEntry>)
    requires Refused(l, e)
    ensures l.log.Term(0).Some? && Batch(l, 1, None) == Capped(e)
  {
    PlainEnds(l.log);
    assert l.log.EntriesFrom(1, 64) == e;
  }

  lemma Starve(t: Trace, e: seq<LogEntry>) returns (u: Trace)
    requires Diverged(t, e)
    ensures Good(Three(), u) && Later(t, u) && 2 in u.sys.nodes
    ensures Holding(u.sys.nodes[2], 2, e + [LogEntry(65, 2, Noop)], 3, Follower) && Packet(1, 2, Capped(e)) in u.sys.net
  {
    hide Good, Step, OnMessage, BecomeFollower, Batch;
    var f, m := t.sys.nodes[2], AppendEntries(3, 1, 65, 3, [], 0, None);
    RefusesStray(f, e);
    StepIsHandle(f, Receive(1, m));
    var a := Go(Three(), t, 2, Receive(1, m));
    u := BackUp(a, e, 1);
    BatchIsCapped(t.sys.nodes[1], e);
  }

  lemma {:induction false} SharedIsPresent(log: LogView, e: seq<LogEntry>, p: nat)
    requires Shared(e) && Plain(log) && log.entries == e + [LogEntry(65, 2, Noop)] && p <= 64
    ensures ScanFrom(log, 0, e, p) == Present
    decreases 64 - p
  {
    PlainEnds(log);
    if p < 64 {
      SharedIsPresent(log, e, p + 1);
    }
  }

  lemma CappedOvercommits(f: Node, e: seq<LogEntry>)
    requires Shared(e) && Holding(f, 2, e + [LogEntry(65, 2, Noop)], 3, Follower)
    ensures Overcommits(f, Capped(e)) && Apply(LogEntry(65, 2, Noop)) in OnMessage(f, 1, Capped(e)).actions
  {
    hide ScanFrom, ValidEntrySequence, OnAppendEntries, LogView.LastIndex, LogView.Term;
    PlainEnds(f.log);
    SharedIsPresent(f.log, e, 0);
    ConsecutiveIsValid(0, 0, 3, e);
    ForeignEntryApplied(f, 1, Capped(e), 65);
  }

  /** The capped batch at work, from the first boot of three voters: every event but the
      last keeps both promises, the last delivers a batch node 1 sent, and nodes 1 and 2
      have applied different entries at index 65. */
  lemma CappedBatchAppliesForeignEntry() returns (t: Trace, last: Event)
    ensures Good(Three(), t) && ClusterRun(Three(), t.events + [last]) && !Covering(t.sys, last) && last.input.Receive?
    ensures (1, Apply(LogEntry(65, 3, Noop))) in Outputs(Three(), t.events + [last])
    ensures (2, Apply(LogEntry(65, 2, Noop))) in Outputs(Three(), t.events + [last])
  {
    hide Step, OnMessage, Overcommits, ValidRun, Run, Emitted, CoveringRun, FreshRun, Initial;
    var a, e := Prepare();
    var b := Diverge(a, e);
    t := Starve(b, e);
    last := Event(2, Receive(1, Capped(e)), None);
    var f := t.sys.nodes[2];
    CappedOvercommits(f, e);
    StepIsHandle(f, last.input);
    RunAppend(Initial(Three()), t.events, last);
  }

  // ------------------------------------------------------------ answers out of time

  function Replayed(n: Node): Node {
    ApplyCommitted(n).node
  }

  lemma StepAfterReplay(n: Node, input: Input)
    ensures Step(n, input).node == Handle(Replayed(n), input).node
    ensures forall a :: a in Handle(Replayed(n), input).actions ==> a in Step(n, input).actions
    ensures Replayed(n) == n.(appliedIndex := Replayed(n).appliedIndex)
  {
    hide OnTick, OnMessage, OnPropose, OnReadIndex, OnSnapshotBuilt;
    ApplyKeepsRole(n);
  }

  function Senders(answers: seq<Packet>): set<NodeId> {
    set i | 0 <= i < |answers| :: answers[i].from
  }

  function Deliveries(n: NodeId, answers: seq<Packet>): seq<Event> {
    seq(|answers|, i requires 0 <= i < |answers| => Event(n, Receive(answers[i].from, answers[i].message), None))
  }

  /** Answers to `n` that name the context and the term `n` is in, all under way. */
  predicate Early(sys: System, n: NodeId, term: nat, context: Bytes, answers: seq<Packet>) {
    forall i {:trigger answers[i]} :: 0 <= i < |answers| ==>
      answers[i] in sys.net && Echo(answers[i], n, term, context) && answers[i].from in sys.cfg.participants
  }

  /** The leader counts acknowledgements of the read, and has too few. */
  predicate Waits(sys: System, n: NodeId, term: nat, context: Bytes, index: nat, acks: set<NodeId>) {
    && n in sys.nodes && n in acks && !sys.cfg.Quorum(acks)
    && var l := sys.nodes[n];
       && l.id == n && l.configuration == sys.cfg && l.role == Leader && l.Term() == term
       && context in l.pendingReads && l.pendingReads[context] == PendingRead(index, acks)
  }

  /** An answer that leaves the read short of a quorum is counted, and no more. */
  lemma AnswerCounts(l: Node, from: NodeId, m: Message, context: Bytes)
    requires m.AppendEntriesResponse? && m.term == l.Term() && m.readContext == Some(context) && l.role == Leader
    requires context in l.pendingReads && l.id in l.pendingReads[context].acknowledgements
    requires from in l.configuration.participants
    requires !l.configuration.Quorum(l.pendingReads[context].acknowledgements + {from})
    ensures var r, read := OnMessage(l, from, m).node, l.pendingReads[context];
            && r.id == l.id && r.configuration == l.configuration && r.role == Leader && r.Term() == l.Term()
            && context in r.pendingReads
            && r.pendingReads[context] == PendingRead(read.index, read.acknowledgements + {from})
  {
    hide Configuration.Quorum, AdvanceLeaderCommit, LogView.LastIndex, ResumeIndex, SendAppend;
    var read := l.pendingReads[context];
    if from == l.id {
      assert read.acknowledgements + {from} == read.acknowledgements;
    } else {
      var acked := read.(acknowledgements := read.acknowledgements + {from});
      var c := l.(recentActive := l.recentActive + {from}, pendingReads := l.pendingReads[context := acked]);
      var p := if from in c.progress then c.(progress := c.progress[from := Raised(c.progress[from], m.matchIndex)])
          else c;
      AdvanceKeepsRole(p);
    }
  }

  /** One more early answer: the read completes, or the leader waits for the others. */
  lemma AnswerDelivered(sys: System, n: NodeId, term: nat, context: Bytes, index: nat, acks: set<NodeId>, p: Packet)
    requires Waits(sys, n, term, context, index, acks) && Early(sys, n, term, context, [p])
    ensures var e := Event(n, Receive(p.from, p.message), None);
            && Allowed(sys, e) && sys.net <= Next(sys, e).net && Next(sys, e).cfg == sys.cfg
            && if sys.cfg.Quorum(acks + {p.from}) then ReadReady(context, index) in Executed(sys, e)
               else Waits(Next(sys, e), n, term, context, index, acks + {p.from})
  {
    hide Step, OnMessage, Configuration.Quorum, Replayed;
    assert [p][0] == p;
    var l := sys.nodes[n];
    StepAfterReplay(l, Receive(p.from, p.message));
    if !sys.cfg.Quorum(acks + {p.from}) {
      AnswerCounts(Replayed(l), p.from, p.message, context);
    } else {
      assert p.from in acks ==> acks + {p.from} == acks;
      AnswerCompletes(Replayed(l), p.from, p.message, context);
    }
  }

  lemma {:induction false} DeliveriesAllowed(sys: System, n: NodeId, term: nat, context: Bytes, answers: seq<Packet>)
    requires n in sys.nodes && Early(sys, n, term, context, answers)
    ensures ValidRun(sys, Deliveries(n, answers))
    decreases |answers|
  {
    hide Step, Configuration.Quorum, Reboot;
    if answers != [] {
      var e := Event(n, Receive(answers[0].from, answers[0].message), None);
      assert Allowed(sys, e);
      EarlyRest(sys, Next(sys, e), n, term, context, answers);
      DeliveriesAllowed(Next(sys, e), n, term, context, answers[1..]);
      assert Deliveries(n, answers)[1..] == Deliveries(n, answers[1..]);
    }
  }

  lemma EarlyStays(sys: System, next: System, n: NodeId, term: nat, context: Bytes, answers: seq<Packet>)
    requires Early(sys, n, term, context, answers) && sys.net <= next.net && next.cfg == sys.cfg
    ensures Early(next, n, term, context, answers)
  {
  }

  lemma EarlyRest(sys: System, next: System, n: NodeId, term: nat, context: Bytes, answers: seq<Packet>)
    requires answers != [] && Early(sys, n, term, context, answers) && sys.net <= next.net && next.cfg == sys.cfg
    ensures Early(sys, n, term, context, [answers[0]]) && Early(next, n, term, context, answers[1..])
    ensures Senders(answers) == {answers[0].from} + Senders(answers[1..])
  {
    forall i | 0 <= i < |answers[1..]|
      ensures answers[1..][i] in next.net && Echo(answers[1..][i], n, term, context)
              && answers[1..][i].from in next.cfg.participants
    {
      assert answers[1..][i] == answers[i + 1];
    }
    forall v | v in Senders(answers) ensures v in {answers[0].from} + Senders(answers[1..]) {
      var i :| 0 <= i < |answers| && answers[i].from == v;
      assert i > 0 ==> answers[1..][i - 1].from == v;
    }
    forall v | v in Senders(answers[1..]) ensures v in Senders(answers) {
      var i :| 0 <= i < |answers[1..]| && answers[1..][i].from == v;
      assert answers[i + 1].from == v;
    }
  }

  /** A run that goes on. */
  lemma {:induction false} RunsOn(sys: System, first: seq<Event>, rest: seq<Event>)
    requires ValidRun(sys, first) && ValidRun(Run(sys, first), rest)
    ensures ValidRun(sys, first + rest)
    decreases |first|
  {
    hide Allowed, Next;
    if first == [] {
      assert first + rest == rest;
    } else {
      assert (first + rest)[1..] == first[1..] + rest;
      RunsOn(Next(sys, first[0]), first[1..], rest);
    }
  }

  /** Delivered one after the other, the answers complete the read. */
  lemma {:induction false} AnswersComplete(cfg: Configuration, events: seq<Event>, n: NodeId, term: nat, context: Bytes,
                                           index: nat, acks: set<NodeId>, answers: seq<Packet>) returns (j: nat)
    requires ClusterRun(cfg, events) && Run(Initial(cfg), events).cfg == cfg
    requires Waits(Run(Initial(cfg), events), n, term, context, index, acks)
    requires Early(Run(Initial(cfg), events), n, term, context, answers) && cfg.Quorum(acks + Senders(answers))
    ensures |events| <= j < |events| + |answers| && ClusterRun(cfg, events + Deliveries(n, answers))
    ensures ReadAt(cfg, events + Deliveries(n, answers), j, n, context, index)
    decreases |answers|
  {
    hide Allowed, Next, Executed, ValidRun, Run, Emitted, CoveringRun, FreshRun, Initial, Waits, Early, Echo,
         Configuration.Quorum, Senders;
    var sys, all := Run(Initial(cfg), events), events + Deliveries(n, answers);
    NonEmpty(sys, n, term, context, index, acks, answers);
    var p := answers[0];
    var e := Event(n, Receive(p.from, p.message), None);
    assert Early(sys, n, term, context, [p]) by { EarlyRest(sys, sys, n, term, context, answers); }
    AnswerDelivered(sys, n, term, context, index, acks, p);
    if cfg.Quorum(acks + {p.from}) {
      j := |events|;
      DeliveriesAllowed(sys, n, term, context, answers);
      RunsOn(Initial(cfg), events, Deliveries(n, answers));
      assert all[..j] == events && all[j] == e;
    } else {
      RunAppend(Initial(cfg), events, e);
      EarlyRest(sys, Next(sys, e), n, term, context, answers);
      assert acks + Senders(answers) == acks + {p.from} + Senders(answers[1..]);
      assert events + [e] + Deliveries(n, answers[1..]) == all;
      j := AnswersComplete(cfg, events + [e], n, term, context, index, acks + {p.from}, answers[1..]);
    }
  }

  lemma NonEmpty(sys: System, n: NodeId, term: nat, context: Bytes, index: nat, acks: set<NodeId>, answers: seq<Packet>)
    requires Waits(sys, n, term, context, index, acks) && sys.cfg.Quorum(acks + Senders(answers))
    ensures answers != [] && n in sys.nodes
  {
    assert acks + Senders([]) == acks;
  }

  /** Whatever run led here, answers that were under way before the node took the read on
      are as good as ones that answer it: once their senders and the node are a quorum,
      they complete the read at the node's own commit index, however far others have
      committed. */
  lemma EarlierAnswersComplete(cfg: Configuration, events: seq<Event>, n: NodeId, context: Bytes, answers: seq<Packet>)
    returns (j: nat)
    requires ClusterRun(cfg, events) && n in At(cfg, events, |events|).nodes
    requires var sys := At(cfg, events, |events|);
             && Accepts(sys.nodes[n], context) && cfg.Quorum({n} + Senders(answers))
             && forall i :: 0 <= i < |answers| ==>
                  answers[i] in sys.net && Echo(answers[i], n, sys.nodes[n].Term(), context)
    ensures var all := events + [Event(n, ReadIndex(context), None)] + Deliveries(n, answers);
            && ClusterRun(cfg, all) && TakenAt(cfg, all, |events|, n, context) && |events| <= j < |all|
            && ReadAt(cfg, all, j, n, context, At(cfg, events, |events|).nodes[n].hardState.commitIndex)
    ensures j == |events| <==> cfg.Quorum({n})
  {
    hide Step, OnReadIndex, OnMessage, Configuration.Quorum, ValidRun, Run, Emitted, CoveringRun, FreshRun, Initial,
         Accepts, Covering, Fresh, Allowed, Next, Executed, Waits, Early, Echo, Senders;
    var sys, e := At(cfg, events, |events|), Event(n, ReadIndex(context), None);
    assert events[..|events|] == events;
    RunConfiguration(cfg, events);
    AnswersUnderWay(cfg, events, n, context, answers);
    var l := sys.nodes[n];
    ReadTaken(sys, n, context);
    RunAppend(Initial(cfg), events, e);
    EarlyStays(sys, Next(sys, e), n, l.Term(), context, answers);
    var all, index := events + [e] + Deliveries(n, answers), l.hardState.commitIndex;
    if cfg.Quorum({n}) {
      j := |events|;
      DeliveriesAllowed(Next(sys, e), n, l.Term(), context, answers);
      RunsOn(Initial(cfg), events + [e], Deliveries(n, answers));
    } else {
      j := AnswersComplete(cfg, events + [e], n, l.Term(), context, index, {n}, answers);
    }
    assert all[..|events|] == events && all[|events|] == e;
  }

  /** Everything under way comes from a participant. */
  lemma AnswersUnderWay(cfg: Configuration, events: seq<Event>, n: NodeId, context: Bytes, answers: seq<Packet>)
    requires ClusterRun(cfg, events) && n in At(cfg, events, |events|).nodes
    requires var sys := At(cfg, events, |events|);
             forall i :: 0 <= i < |answers| ==>
               answers[i] in sys.net && Echo(answers[i], n, sys.nodes[n].Term(), context)
    ensures var sys := At(cfg, events, |events|);
            && Early(sys, n, sys.nodes[n].Term(), context, answers)
            && sys.nodes[n].id == n && sys.nodes[n].configuration == sys.cfg
  {
    hide SystemInv, ValidRun, Run, Initial, PastGrows, EmittedOk, Outputs, At, CoveringRun, FreshRun, Echo;
    var past, _, _ := Moments(cfg, events, false, NoRead, |events|, |events|);
    var sys := At(cfg, events, |events|);
    RaftVotes.Participates(sys, past, n);
    forall i | 0 <= i < |answers|
      ensures answers[i] in sys.net && Echo(answers[i], n, sys.nodes[n].Term(), context)
              && answers[i].from in sys.cfg.participants
    {
      SenderParticipates(sys, past, answers[i]);
    }
  }

  lemma SenderParticipates(sys: System, past: Past, p: Packet)
    requires SystemInv(sys, past) && p in sys.net
    ensures p.from in sys.cfg.participants
  {
    hide RaftSafety.Inv, NodeOk, ReadOk;
    assert PacketOk(sys.cfg, sys.built, past, p);
  }

  /** Taking a read on: alone a quorum, the node completes it; otherwise it waits. */
  lemma ReadTaken(sys: System, n: NodeId, context: Bytes)
    requires n in sys.nodes && Accepts(sys.nodes[n], context)
    requires sys.nodes[n].id == n && sys.nodes[n].configuration == sys.cfg
    ensures var e, l := Event(n, ReadIndex(context), None), sys.nodes[n];
            && Allowed(sys, e) && sys.net <= Next(sys, e).net && Next(sys, e).cfg == sys.cfg
            && n in Next(sys, e).nodes
            && if sys.cfg.Quorum({n}) then ReadReady(context, l.hardState.commitIndex) in Executed(sys, e)
               else Waits(Next(sys, e), n, l.Term(), context, l.hardState.commitIndex, {n})
  {
    hide Step, Configuration.Quorum, Replayed, Broadcast;
    var l := sys.nodes[n];
    StepAfterReplay(l, ReadIndex(context));
    assert Accepts(Replayed(l), context);
  }

  // -------------------------------------------------------------------- a stale read

  lemma Resigns(n: Node, active: set<NodeId>)
    requires Voter(n, 1)
    ensures var r := BecomeFollower(n.(recentActive := active), n.Term(), None).node;
            Voter(r, 1) && r.role == Follower && r.log == n.log && r.Term() == n.Term()
              && r.hardState.commitIndex == n.hardState.commitIndex
  {
    hide RejectReads, Sorted;
  }

  lemma CheckOnce(t: Trace, r: Node) returns (u: Trace)
    requires Good(Three(), t) && 1 in t.sys.nodes && Settled(t.sys.nodes[1]) && t.sys.nodes[1].role == Leader
    requires OnTick(t.sys.nodes[1], CheckQuorum).node == r
    ensures Good(Three(), u) && Later(t, u) && u.sys.nodes == t.sys.nodes[1 := r]
  {
    hide Good, Step, OnTick;
    StepIsHandle(t.sys.nodes[1], TickInput(CheckQuorum));
    u := Go(Three(), t, 1, TickInput(CheckQuorum));
  }

  lemma ChecksOfOne(n: Node)
    requires Voter(n, 1) && n.role == Leader && n.recentActive == {1, 2, 3}
    ensures var m := n.(recentActive := {1});
            && OnTick(n, CheckQuorum).node == m
            && OnTick(m, CheckQuorum).node == BecomeFollower(m, n.Term(), None).node
  {
    hide OnTick, Configuration.Quorum, BecomeFollower, Plain;
    ThreeQuorums(1, 2);
    QuorumOfTwo(1, 2, {1, 2, 3});
    ChecksQuorum(n);
    ChecksQuorum(n.(recentActive := {1}));
  }

  /** Node 1 loses touch with its cluster and gives up the term. */
  lemma StepDown(t: Trace) returns (u: Trace)
    requires Good(Three(), t) && 1 in t.sys.nodes && Voter(t.sys.nodes[1], 1)
    requires t.sys.nodes[1].role == Leader && t.sys.nodes[1].recentActive == {1, 2, 3}
    ensures Good(Three(), u) && Later(t, u)
    ensures 1 in u.sys.nodes && u.sys.nodes == t.sys.nodes[1 := u.sys.nodes[1]] && Voter(u.sys.nodes[1], 1)
    ensures var n, r := t.sys.nodes[1], u.sys.nodes[1];
            r.role == Follower && r.log == n.log && r.Term() == n.Term()
              && r.hardState.commitIndex == n.hardState.commitIndex
  {
    hide Good, OnTick, Configuration.Quorum, BecomeFollower, Plain;
    var n := t.sys.nodes[1];
    var m := n.(recentActive := {1});
    Resigns(n, {1});
    ChecksOfOne(n);
    var a := CheckOnce(t, m);
    u := CheckOnce(a, BecomeFollower(m, n.Term(), None).node);
  }

  /** Where the read is taken on again: node 1 still leads term 2 at index 2, an answer
      of node 2 to the old question is under way under that term, and node 2 has since
      led term 3 and committed index 3. */
  predicate Stale(t: Trace, context: Bytes, echo: Message) {
    && Good(Three(), t) && t.sys.nodes.Keys == {1, 2, 3}
    && (var l := t.sys.nodes[1]; Voter(l, 1) && l.role == Leader && l.Term() == 2 && l.hardState.commitIndex == 2
                                 && Accepts(l, context))
    && Current(t.sys.nodes[2]) && t.sys.nodes[2].hardState.commitIndex == 3
    && Packet(2, 1, echo) in t.sys.net && Echo(Packet(2, 1, echo), 1, 2, context)
  }

  lemma SameLogMayElect(t: Trace, c: NodeId, v: NodeId)
    requires c in t.sys.nodes && v in t.sys.nodes && c != v && Voter(t.sys.nodes[c], c) && Voter(t.sys.nodes[v], v)
    requires t.sys.nodes[c].role != Leader && t.sys.nodes[v].Term() <= t.sys.nodes[c].Term()
    requires t.sys.nodes[v].log.entries in [t.sys.nodes[c].log.entries, []]
    ensures MayElect(t, c, v)
  {
  }

  /** Node 1 leads term 2 again, and node 2 has answered its old question under that term. */
  predicate Answered(t: Trace, context: Bytes, echo: Message) {
    && Good(Three(), t) && t.sys.nodes.Keys == {1, 2, 3} && t.sys.nodes[3] == Boot(Three(), 3)
    && Voter(t.sys.nodes[1], 1) && Voter(t.sys.nodes[2], 2)
    && (var l := t.sys.nodes[1]; l.role == Leader && l.Term() == 2 && l.hardState.commitIndex == 2
                                 && Accepts(l, context))
    && (var f := t.sys.nodes[2]; f.role == Follower && f.Term() == 2
                                 && f.log.entries == [LogEntry(1, 1, Noop), LogEntry(2, 2, Noop)])
    && Packet(2, 1, echo) in t.sys.net && Echo(Packet(2, 1, echo), 1, 2, context)
  }

  lemma AnswerLate(context: Bytes) returns (t: Trace, echo: Message)
    requires context != []
    ensures Answered(t, context, echo)
  {
    hide Good, Leading, Following, OnMessage, Step, LogView.LastIndex, LogView.LastTerm;
    var a, first := AskFirst(context);
    var b := StepDown(a);
    var n, w := b.sys.nodes[1], b.sys.nodes[2];
    SameLogMayElect(b, 1, 2);
    var c := Lead(b, 1, 2);
    LeadingIs(n, 1, 2, w);
    var l, f := Leading(n, 2, w), Following(n, w);
    StepIsHandle(f, Receive(1, first));
    EchoesUnderOwnTerm(f, 1, first);
    echo := AppendEntriesResponse(2, false, 0, f.log.LastIndex() + 1, None, Some(context));
    assert Send(1, echo) in OnMessage(f, 1, first).actions;
    t := Go(Three(), c, 2, Receive(1, first));
  }

  lemma GoStale(context: Bytes) returns (t: Trace, echo: Message)
    requires context != []
    ensures Stale(t, context, echo)
  {
    hide Good, Leading, Following, LogView.LastIndex, LogView.LastTerm;
    var d;
    d, echo := AnswerLate(context);
    var f, z := d.sys.nodes[2], Boot(Three(), 3);
    StartIsGood();
    SameLogMayElect(d, 2, 3);
    t := Lead(d, 2, 3);
    LeadingIs(f, 2, 3, z);
  }

  /** A context used again in a later term: the run keeps both promises until node 1
      takes the read on a second time, and the read completes below what node 2 had
      committed by then. */
  lemma ReusedContextReadsStale(context: Bytes) returns (t: Trace, read: Event, answer: Event)
    requires context != []
    ensures Good(Three(), t) && ClusterRun(Three(), t.events + [read] + [answer]) && !Fresh(t.sys, read)
    ensures TakenAt(Three(), t.events + [read] + [answer], |t.events|, 1, context)
    ensures ReadAt(Three(), t.events + [read] + [answer], |t.events| + 1, 1, context, 2)
    ensures 2 in t.sys.nodes && Current(t.sys.nodes[2]) && t.sys.nodes[2].hardState.commitIndex == 3
  {
    hide ValidRun, Run, Emitted, CoveringRun, FreshRun, Initial, Accepts, Current, Configuration.Quorum, TakenAt,
         ReadAt;
    var echo;
    t, echo := GoStale(context);
    var p := Packet(2, 1, echo);
    read, answer := Event(1, ReadIndex(context), None), Event(1, Receive(2, echo), None);
    assert t.events[..|t.events|] == t.events;
    TwoAreQuorum(p);
    var j := EarlierAnswersComplete(Three(), t.events, 1, context, [p]);
    assert Deliveries(1, [p]) == [answer] && j == |t.events| + 1;
  }

  lemma TwoAreQuorum(p: Packet)
    requires p.from == 2
    ensures Three().Quorum({1} + Senders([p])) && !Three().Quorum({1})
  {
    hide Configuration.Quorum;
    ThreeQuorums(1, 2);
    assert [p][0].from == 2 && Senders([p]) == {2};
  }
}
