/** Building runs of the cluster event by event, and runs that reach the protocol's
    goals: leaders are elected, entries applied on several nodes, reads completed. */
module RaftRuns {
  import opened Wrappers
  import opened Ordering
  import opened RaftTypes
  import opened RaftLog
  import opened RaftNode
  import opened RaftCluster
  import opened RaftVotes
  import opened RaftReplication
  import opened RaftLeading
  import opened RaftTheorems

  // ---------------------------------------------------------------------- traces

  /** A run so far: its events, where it has got to, and what it has emitted. */
  datatype Trace = Trace(events: seq<Event>, sys: System, out: set<(NodeId, Action)>)

  predicate Good(cfg: Configuration, t: Trace) {
    && ClusterRun(cfg, t.events) && Run(Initial(cfg), t.events) == t.sys && Outputs(cfg, t.events) == t.out
    && CoveringRun(Initial(cfg), t.events) && FreshRun(Initial(cfg), t.events, AnyRead)
  }

  function Started(cfg: Configuration): Trace {
    Trace([], Initial(cfg), {})
  }

  lemma {:induction false} RunAppend(sys: System, events: seq<Event>, e: Event)
    requires ValidRun(sys, events) && Allowed(Run(sys, events), e)
    ensures ValidRun(sys, events + [e]) && Run(sys, events + [e]) == Next(Run(sys, events), e)
    ensures Emitted(sys, events + [e]) == Emitted(sys, events)
            + (set a | a in Executed(Run(sys, events), e) :: (e.node, a))
    ensures CoveringRun(sys, events) && Covering(Run(sys, events), e) ==> CoveringRun(sys, events + [e])
    ensures FreshRun(sys, events, AnyRead) && Fresh(Run(sys, events), e) ==> FreshRun(sys, events + [e], AnyRead)
    decreases |events|
  {
    hide Allowed, Next, Executed, Covering, Fresh;
    if events == [] {
      assert [e][1..] == [];
    } else {
      RunAppend(Next(sys, events[0]), events[1..], e);
      assert (events + [e])[1..] == events[1..] + [e];
    }
  }

  /** What was sent and emitted stays sent and emitted. */
  predicate Grown(t: Trace, u: Trace) {
    t.sys.net <= u.sys.net && t.out <= u.out
  }

  /** As long as no read is taken on. */
  predicate Later(t: Trace, u: Trace) {
    Grown(t, u) && u.sys.asked == t.sys.asked
  }

  /** Everything in `actions` has happened. */
  predicate Said(u: Trace, n: NodeId, actions: seq<Action>) {
    forall a {:trigger a in actions} :: a in actions ==>
      (n, a) in u.out && (a.Send? ==> Packet(n, a.to, a.message) in u.sys.net)
  }

  predicate Harmless(sys: System, n: NodeId, input: Input) {
    && n in sys.nodes
    && match input
       case Receive(from, m) => Packet(from, n, m) in sys.net && !Overcommits(sys.nodes[n], m)
       case ReadIndex(c) => Fresh(sys, Event(n, input, None))
       case SnapshotBuilt(_) => false
       case _ => true
  }

  /** One event without a crash. */
  lemma Go(cfg: Configuration, t: Trace, n: NodeId, input: Input) returns (u: Trace)
    requires Good(cfg, t) && Harmless(t.sys, n, input)
    ensures Good(cfg, u) && Grown(t, u) && (!input.ReadIndex? ==> Later(t, u))
    ensures u.events == t.events + [Event(n, input, None)]
    ensures var o := Step(t.sys.nodes[n], input);
            && u.sys.nodes == t.sys.nodes[n := o.node]
            && Said(u, n, o.actions)
  {
    hide Step, Initial, ValidRun, Run, Emitted, CoveringRun, FreshRun, Accepts, Echoed, Overcommits;
    var e := Event(n, input, None);
    RunAppend(Initial(cfg), t.events, e);
    u := Trace(t.events + [e], Next(t.sys, e), t.out + (set a | a in Executed(t.sys, e) :: (n, a)));
  }

  // -------------------------------------------------------------- one node's steps

  predicate Settled(n: Node) {
    n.appliedIndex == n.hardState.commitIndex
  }

  lemma StepIsHandle(n: Node, input: Input)
    requires Settled(n)
    ensures Step(n, input) == Handle(n, input)
  {
    hide OnTick, OnMessage, OnPropose, OnReadIndex, OnSnapshotBuilt;
    assert ApplyCommitted(n) == Out(n, []);
    var h := Handle(n, input);
    assert [] + h.actions == h.actions;
  }

  /** Nothing compacted, and entries numbered from one. */
  predicate Plain(log: LogView) {
    log.baseIndex == 0 && log.baseTerm == 0 && forall i :: 0 <= i < |log.entries| ==> log.entries[i].index == i + 1
  }

  lemma PlainEnds(log: LogView)
    requires Plain(log)
    ensures log.LastIndex() == |log.entries|
    ensures forall k: nat {:trigger log.Term(k)} ::
              log.Term(k) == if k == 0 then Some(0) else if 0 < k <= |log.entries| then Some(log.entries[k - 1].term)
                else None
  {
  }

  lemma ToAllSends(peers: seq<NodeId>, m: Message, p: NodeId)
    requires p in peers
    ensures Send(p, m) in ToAll(peers, m)
  {
    var i :| 0 <= i < |peers| && peers[i] == p;
    assert ToAll(peers, m)[i] == Send(p, m);
  }

  lemma {:induction false} BroadcastSends(n: Node, peers: seq<NodeId>, context: Option<Bytes>, p: NodeId)
    requires p in peers
    ensures forall a :: a in SendAppend(n, p, context) ==> a in Broadcast(n, peers, context)
    decreases |peers|
  {
    hide SendAppend;
    if peers[0] != p {
      BroadcastSends(n, peers[1..], context, p);
    }
  }

  predicate Colleagues(n: Node, p: NodeId) {
    p in n.configuration.participants && p != n.id
  }

  lemma StartsPreVote(n: Node, p: NodeId)
    requires n.role != Leader && !n.configuration.Quorum({n.id}) && Colleagues(n, p)
    ensures var o := OnTick(n, Election);
            && o.node == PreCandidacy(n)
            && Send(p, PreVoteRequest(n.Term() + 1, n.id, n.log.LastIndex(), n.log.LastTerm())) in o.actions
  {
    hide ToAll, LogView.LastIndex, LogView.LastTerm, Configuration.Quorum;
    var m := PreVoteRequest(n.Term() + 1, n.id, n.log.LastIndex(), n.log.LastTerm());
    ToAllSends(PreCandidacy(n).Peers(), m, p);
  }

  lemma GrantsPreVote(v: Node, c: NodeId, term: nat, li: nat, lt: nat)
    requires Colleagues(v, c) && term > v.Term() && v.CandidateIsUpToDate(li, lt)
    ensures OnMessage(v, c, PreVoteRequest(term, c, li, lt)) == Out(v, [Send(c, PreVoteResponse(v.Term(), term, true))])
  {
    hide LogView.LastIndex, LogView.LastTerm;
  }

  lemma WinsPreVote(n: Node, v: NodeId, rt: nat, p: NodeId)
    requires n.role == PreCandidate && n.campaignTerm == Some(n.Term() + 1) && n.votes == {n.id}
    requires Colleagues(n, v) && Colleagues(n, p) && rt <= n.Term()
    requires n.configuration.Quorum({n.id} + {v}) && !n.configuration.Quorum({n.id})
    ensures var o := OnMessage(n, v, PreVoteResponse(rt, n.Term() + 1, true));
            && o.node == Candidacy(n)
            && Send(p, RequestVote(n.Term() + 1, n.id, n.log.LastIndex(), n.log.LastTerm())) in o.actions
  {
    hide ToAll, LogView.LastIndex, LogView.LastTerm, Configuration.Quorum, BecomeLeader, BecomeFollower;
    var m := RequestVote(n.Term() + 1, n.id, n.log.LastIndex(), n.log.LastTerm());
    ToAllSends(Candidacy(n).Peers(), m, p);
  }

  function Granted(v: Node, c: NodeId, term: nat): Node {
    Voted(BecomeFollower(v, term, None).node, c)
  }

  lemma GrantsVote(v: Node, c: NodeId, term: nat, li: nat, lt: nat)
    requires Colleagues(v, c) && term > v.Term() && v.CandidateIsUpToDate(li, lt)
    ensures var o := OnMessage(v, c, RequestVote(term, c, li, lt));
            o.node == Granted(v, c, term) && Send(c, RequestVoteResponse(term, true)) in o.actions
  {
    hide LogView.LastIndex, LogView.LastTerm, RejectReads, Sorted;
    var f := BecomeFollower(v, term, None);
    assert Send(c, RequestVoteResponse(term, true)) in AnswerVote(f.node, term, c, li, lt).actions;
  }

  /** The append a leader sends a peer whose next index is within its log. */
  function Batch(l: Node, next: nat, context: Option<Bytes>): Message
    requires 0 < next && l.log.Term(next - 1).Some?
  {
    AppendEntries(l.Term(), l.id, next - 1, l.log.Term(next - 1).value, l.log.EntriesFrom(next, MAX_APPEND_ENTRIES),
                  l.hardState.commitIndex, context)
  }

  lemma SendsBatch(l: Node, p: NodeId, context: Option<Bytes>)
    requires Plain(l.log) && p in l.progress && 0 < l.progress[p].nextIndex <= |l.log.entries| + 1
    ensures l.log.Term(l.progress[p].nextIndex - 1).Some?
    ensures SendAppend(l, p, context) == [Send(p, Batch(l, l.progress[p].nextIndex, context))]
  {
    hide LogView.LastIndex, LogView.Term, LogView.EntriesFrom;
    PlainEnds(l.log);
  }

  /** Nothing to commit yet. */
  predicate Idle(l: Node) {
    l.configuration.QuorumIndex(l.Matched()) <= l.hardState.commitIndex
  }

  lemma WinsVote(n: Node, v: NodeId, p: NodeId)
    requires n.role == Candidate && n.votes == {n.id} && Plain(n.log)
    requires Colleagues(n, v) && Colleagues(n, p) && n.configuration.Quorum({n.id} + {v})
    requires Idle(Leadership(n))
    ensures var o, l := OnMessage(n, v, RequestVoteResponse(n.Term(), true)), Leadership(n);
            && o.node == l && RoleChanged(Leader, n.Term()) in o.actions && Plain(l.log)
            && l.log.Term(|n.log.entries| + 1) == Some(n.Term())
            && Send(p, Batch(l, |n.log.entries| + 2, None)) in o.actions
  {
    hide Configuration.Quorum, Configuration.QuorumIndex, Node.Matched, SendAppend, Broadcast, BecomeFollower, Batch;
    PlainEnds(n.log);
    var l, c := Leadership(n), n.(votes := n.votes + {v});
    assert Leadership(c) == l;
    BroadcastSends(l, l.Peers(), None, p);
    SendsBatch(l, p, None);
    assert SendAppend(l, p, None)[0] == Send(p, Batch(l, |n.log.entries| + 2, None));
    assert AdvanceLeaderCommit(l) == Out(l, []);
    var o := BecomeLeader(c);
    assert o.actions == [Persist(Append([FirstEntry(n)])), RoleChanged(Leader, n.Term()), ResetHeartbeatTimer] + []
                        + Broadcast(l, l.Peers(), None);
    assert o.actions[1] == RoleChanged(Leader, n.Term());
  }

  lemma TakesProposal(l: Node, id: nat, command: Bytes)
    requires l.role == Leader
    requires var e := LogEntry(l.log.LastIndex() + 1, l.Term(), Command(id, command)); Idle(Extended(l, e))
    ensures var e := LogEntry(l.log.LastIndex() + 1, l.Term(), Command(id, command));
            OnPropose(l, id, command).node == Extended(l, e)
  {
    hide Configuration.QuorumIndex, Node.Matched, Broadcast, LogView.LastIndex;
    var e := LogEntry(l.log.LastIndex() + 1, l.Term(), Command(id, command));
    assert AdvanceLeaderCommit(Extended(l, e)) == Out(Extended(l, e), []);
  }

  // ---------------------------------------------------------------- one batch

  /** A follower that lacks the entry before the batch asks for what it lacks. */
  lemma RefusesGap(f: Node, from: NodeId, m: Message)
    requires m.AppendEntries? && m.leaderId == from && Colleagues(f, from) && m.term >= f.Term()
    requires Plain(f.log) && m.prevLogIndex > |f.log.entries|
    ensures var o := OnMessage(f, from, m);
            && o.node == BecomeFollower(f, m.term, Some(from)).node
            && Send(from, AppendEntriesResponse(m.term, false, 0, |f.log.entries| + 1, None,
                                                m.readContext)) in o.actions
  {
    hide RejectReads, Sorted, ValidEntrySequence, ScanFrom, LogView.Term, LogView.LastIndex;
    PlainEnds(f.log);
    var b := BecomeFollower(f, m.term, Some(from)).node;
    assert RejectAppend(b, from, m.readContext, b.log.LastIndex() + 1, None)[0]
           == Send(from, AppendEntriesResponse(m.term, false, 0, |f.log.entries| + 1, None, m.readContext));
  }

  /** The leader after hearing that `from` continues at `next`. */
  function Backed(l: Node, from: NodeId, next: nat): Node
    requires from in l.progress
  {
    l.(recentActive := l.recentActive + {from},
       progress := l.progress[from := l.progress[from].(nextIndex := next, snapshotOffset := None)])
  }

  /** A rejection that names no known term takes the leader to the index it names, or
      one below where it was. */
  lemma BacksUp(l: Node, from: NodeId, m: Message, next: nat)
    requires m.AppendEntriesResponse? && !m.success && m.readContext.None? && m.term == l.Term() && l.role == Leader
    requires m.conflictTerm.Some? ==> l.log.LastIndexOfTerm(m.conflictTerm.value).None?
    requires Colleagues(l, from) && from in l.progress && Plain(l.log)
    requires 0 < m.conflictIndex && 1 < l.progress[from].nextIndex
             && next == Lesser(m.conflictIndex, l.progress[from].nextIndex - 1)
    requires next <= |l.log.entries| + 1
    ensures var o := OnMessage(l, from, m);
            && o.node == Backed(l, from, next) && l.log.Term(next - 1).Some?
            && Send(from, Batch(l, next, None)) in o.actions
  {
    hide SendAppend, BecomeFollower, LogView.LastIndexOfTerm, LogView.Term, LogView.EntriesFrom;
    var b := Backed(l, from, next);
    assert ResumeIndex(l.(recentActive := l.recentActive + {from}), m) == m.conflictIndex;
    SendsBatch(b, from, None);
    assert SendAppend(b, from, None)[0] == Send(from, Batch(b, next, None));
    assert [] + SendAppend(b, from, None) == SendAppend(b, from, None);
  }

  predicate Consecutive(previousIndex: nat, previousTerm: nat, top: nat, entries: seq<LogEntry>) {
    && (forall i :: 0 <= i < |entries| ==> entries[i].index == previousIndex + 1 + i
                                           && previousTerm <= entries[i].term <= top)
    && forall i, j :: 0 <= i <= j < |entries| ==> entries[i].term <= entries[j].term
  }

  lemma {:induction false} ConsecutiveIsValid(previousIndex: nat, previousTerm: nat, top: nat, entries: seq<LogEntry>)
    requires Consecutive(previousIndex, previousTerm, top, entries)
    ensures ValidEntrySequence(previousIndex, previousTerm, top, entries)
    decreases |entries|
  {
    if entries != [] {
      ConsecutiveIsValid(previousIndex + 1, entries[0].term, top, entries[1..]);
    }
  }

  lemma {:induction false} ApplyAll(n: Node)
    requires n.log.baseIndex <= n.appliedIndex <= n.hardState.commitIndex <= n.log.baseIndex + |n.log.entries|
    ensures ApplyCommitted(n).node == n.(appliedIndex := n.hardState.commitIndex)
    ensures forall k {:trigger n.log.entries[k]} ::
              n.appliedIndex - n.log.baseIndex <= k < n.hardState.commitIndex - n.log.baseIndex ==>
              Apply(n.log.entries[k]) in ApplyCommitted(n).actions
    decreases n.hardState.commitIndex - n.appliedIndex
  {
    if n.appliedIndex < n.hardState.commitIndex {
      ApplyAll(n.(appliedIndex := n.appliedIndex + 1));
    }
  }

  /** The node with everything through `c` committed and applied. */
  function Learned(n: Node, c: nat): Node {
    if c <= n.hardState.commitIndex then n else n.(hardState := n.hardState.(commitIndex := c), appliedIndex := c)
  }

  lemma SetCommitLearns(n: Node, c: nat)
    requires Plain(n.log) && Settled(n) && c <= |n.log.entries|
    ensures SetCommit(n, c).node == Learned(n, c)
    ensures forall k {:trigger n.log.entries[k]} ::
              n.appliedIndex <= k < c ==> Apply(n.log.entries[k]) in SetCommit(n, c).actions
  {
    hide LogView.LastIndex, LogView.Entry, ApplyCommitted;
    PlainEnds(n.log);
    if c > n.hardState.commitIndex {
      ApplyAll(n.(hardState := n.hardState.(commitIndex := c)));
    }
  }

  /** A follower whose log ends just before the batch takes it over. */
  function Taken(f: Node, m: Message): Node
    requires m.AppendEntries?
  {
    var b := BecomeFollower(f, m.term, Some(m.leaderId)).node;
    var w := b.(log := LogView(0, 0, b.log.entries + m.entries));
    Learned(w, Lesser(m.leaderCommit, |w.log.entries|))
  }

  lemma TakesBatch(f: Node, from: NodeId, m: Message)
    requires m.AppendEntries? && m.leaderId == from && Colleagues(f, from) && m.term >= f.Term()
    requires Plain(f.log) && Settled(f) && m.prevLogIndex == |f.log.entries|
    requires f.log.Term(m.prevLogIndex) == Some(m.prevLogTerm)
             && Consecutive(m.prevLogIndex, m.prevLogTerm, m.term, m.entries)
    ensures var o := OnMessage(f, from, m);
            && o.node == Taken(f, m)
            && Send(from, AppendEntriesResponse(m.term, true, m.prevLogIndex + |m.entries|, 0, None,
                                                m.readContext)) in o.actions
            && forall k {:trigger Taken(f, m).log.entries[k]} ::
                 f.appliedIndex <= k < Lesser(m.leaderCommit, |f.log.entries| + |m.entries|) ==>
                     Apply(Taken(f, m).log.entries[k]) in o.actions
  {
    hide RejectReads, Sorted, ValidEntrySequence, RejectAppend, SetCommit, LogView.FirstIndexOfTerm, LogView.Term,
         LogView.LastIndex;
    ConsecutiveIsValid(m.prevLogIndex, m.prevLogTerm, m.term, m.entries);
    PlainEnds(f.log);
    var b := BecomeFollower(f, m.term, Some(from)).node;
    var w := b.(log := LogView(0, 0, b.log.entries + m.entries));
    var c := Lesser(m.leaderCommit, |w.log.entries|);
    PlainEnds(w.log);
    SetCommitLearns(w, c);
    assert FinishAppend(w, from, m).node == Taken(f, m);
    if m.entries == [] {
      assert w == b by { assert b.log.entries + [] == b.log.entries; }
      assert CheckPrevious(b, from, m) == FinishAppend(b, from, m);
    } else {
      assert ScanFrom(b.log, b.hardState.commitIndex, m.entries, 0) == ChangedAt(|f.log.entries| + 1, 0);
      assert m.entries[0..] == m.entries && b.log.entries[..|b.log.entries|] == b.log.entries;
      assert WriteSuffix(b, |f.log.entries| + 1, m.entries).node == w;
      assert CheckPrevious(b, from, m).node == FinishAppend(w, from, m).node;
      assert forall a :: a in FinishAppend(w, from, m).actions ==> a in CheckPrevious(b, from, m).actions;
    }
  }

  /** The leader after `from` acknowledged its whole log. */
  function Heard(l: Node, from: NodeId): Node
    requires from in l.progress
  {
    l.(recentActive := l.recentActive + {from},
       progress := l.progress[from := Raised(l.progress[from], |l.log.entries|)])
  }

  lemma CommitsOwn(l: Node, from: NodeId, m: Message)
    requires m == AppendEntriesResponse(l.Term(), true, |l.log.entries|, 0, None, None) && l.role == Leader
    requires Colleagues(l, from) && from in l.progress && Plain(l.log) && Settled(l) && l.log.entries != []
    requires l.log.entries[|l.log.entries| - 1].term == l.Term() && l.hardState.commitIndex < |l.log.entries|
    requires l.configuration.QuorumIndex(Heard(l, from).Matched()) == |l.log.entries|
    ensures var o := OnMessage(l, from, m);
            && o.node == Learned(Heard(l, from), |l.log.entries|)
            && forall k {:trigger l.log.entries[k]} ::
                 l.appliedIndex <= k < |l.log.entries| ==> Apply(l.log.entries[k]) in o.actions
  {
    hide Configuration.QuorumIndex, Node.Matched, SendAppend, BecomeFollower, SetCommit, LogView.Term,
         LogView.LastIndex;
    var h := Heard(l, from);
    PlainEnds(l.log);
    SetCommitLearns(h, |l.log.entries|);
    assert AdvanceLeaderCommit(h) == SetCommit(h, |l.log.entries|);
    var o := SetCommit(h, |l.log.entries|);
    assert MatchReported(l.(recentActive := l.recentActive + {from}), from, m) == Then(o, Out(o.node, []));
  }

  // ------------------------------------------------------------------------ reads

  lemma TakesRead(l: Node, context: Bytes, p: NodeId)
    requires Accepts(l, context) && !l.configuration.Quorum({l.id}) && Colleagues(l, p)
    requires Plain(l.log) && p in l.progress && 0 < l.progress[p].nextIndex <= |l.log.entries| + 1
    ensures var o := OnReadIndex(l, context);
            && o.node == Asking(l, context) && l.log.Term(l.progress[p].nextIndex - 1).Some?
            && Send(p, Batch(l, l.progress[p].nextIndex, Some(context))) in o.actions
  {
    hide Configuration.Quorum, SendAppend, Broadcast, LogView.Term, LogView.EntriesFrom;
    var a := Asking(l, context);
    SendsBatch(a, p, Some(context));
    BroadcastSends(a, a.Peers(), Some(context), p);
    assert SendAppend(a, p, Some(context))[0] == Send(p, Batch(l, l.progress[p].nextIndex, Some(context)));
  }

  /** Whatever an answer says, naming the context completes the read. */
  lemma AnswerCompletes(l: Node, from: NodeId, m: Message, context: Bytes)
    requires m.AppendEntriesResponse? && m.term == l.Term() && m.readContext == Some(context) && l.role == Leader
    requires Colleagues(l, from) && context in l.pendingReads
    requires l.configuration.Quorum(l.pendingReads[context].acknowledgements + {from})
    ensures ReadReady(context, l.pendingReads[context].index) in OnMessage(l, from, m).actions
  {
    hide Configuration.Quorum, MatchReported, ConflictReported, BecomeFollower;
    var active := l.(recentActive := l.recentActive + {from});
    assert ReadReady(context, l.pendingReads[context].index) in AcknowledgeRead(active, from, context).actions;
  }

  /** A node of a later term answers with that term and the old append's context. */
  lemma EchoesUnderOwnTerm(f: Node, from: NodeId, m: Message)
    requires m.AppendEntries? && m.leaderId == from && Colleagues(f, from) && m.term < f.Term()
    ensures OnMessage(f, from, m)
            == Out(f, [Send(from,
                            AppendEntriesResponse(f.Term(), false, 0, f.log.LastIndex() + 1, None, m.readContext))])
  {
    hide LogView.LastIndex;
  }

  lemma ChecksQuorum(l: Node)
    requires l.role == Leader
    ensures OnTick(l, CheckQuorum).node
            == if l.configuration.Quorum(l.recentActive) then l.(recentActive := {l.id})
              else BecomeFollower(l, l.Term(), None).node
  {
    hide Configuration.Quorum, Broadcast, BecomeFollower;
  }

  // ------------------------------------------------------------------ three voters

  function Three(): Configuration {
    Configuration({1, 2, 3}, {1, 2, 3}, None)
  }

  lemma ThreeQuorums(a: NodeId, b: NodeId)
    requires a in {1, 2, 3} && b in {1, 2, 3} && a != b
    ensures Three().Valid() && Three().Quorum({a} + {b}) && !Three().Quorum({a})
  {
    var all: set<NodeId> := {1, 2, 3};
    TwoOf(a, b);
    assert |all| == 3 by { ThreeMembers(); }
    assert all * ({a} + {b}) == {a} + {b} && all * {a} == {a};
  }

  lemma TwoOf(a: NodeId, b: NodeId)
    requires a != b
    ensures |{a}| == 1 && |{a} + {b}| == 2
  {
    assert ({a} + {b}) - {b} == {a};
  }

  lemma ThreeMembers()
    ensures var all: set<NodeId> := {1, 2, 3}; |all| == 3
  {
  }

  lemma QuorumOfTwo(a: NodeId, b: NodeId, votes: set<NodeId>)
    requires a in {1, 2, 3} && b in {1, 2, 3} && a != b && {a, b} <= votes
    ensures Three().Quorum(votes)
  {
    ThreeQuorums(a, b);
    QuorumMonotone(Three(), {a} + {b}, votes);
  }

  /** With two voters at `x` and the third no further, `x` is the quorum index. */
  lemma QuorumAt(matched: map<NodeId, nat>, a: NodeId, b: NodeId, x: nat)
    requires matched.Keys == {1, 2, 3} && a in matched && b in matched && a != b
    requires matched[a] >= x && matched[b] >= x && forall v :: v in matched && v != a ==> matched[v] <= x
    ensures Three().QuorumIndex(matched) == x
  {
    hide Configuration.QuorumIndex;
    ThreeQuorums(a, b);
    QuorumIndexIsExact(Three(), matched);
    QuorumOfTwo(a, b, Reached(matched, x));
    var q := Three().QuorumIndex(matched);
    if q > x {
      assert Reached(matched, q) <= {a};
      QuorumMonotone(Three(), Reached(matched, q), {a});
    }
  }

  /** A voter that has heard from its cluster and keeps nothing pending. */
  predicate Voter(node: Node, n: NodeId) {
    && n in {1, 2, 3} && node.id == n && node.configuration == Three()
    && Plain(node.log) && Settled(node) && node.hardState.commitIndex <= |node.log.entries|
  }

  function Elected(n: Node): Node {
    Leadership(Candidacy(PreCandidacy(n)))
  }

  lemma ElectedIsIdle(n: Node, id: NodeId)
    requires Voter(n, id)
    ensures Idle(Elected(n)) && Voter(Elected(n), id)
    ensures Elected(n).log.entries == n.log.entries + [LogEntry(|n.log.entries| + 1, n.Term() + 1, Noop)]
  {
    hide Configuration.QuorumIndex;
    PlainEnds(n.log);
    var l := Elected(n);
    var b: NodeId := if id == 1 then 2 else 1;
    assert l.Matched().Keys == {1, 2, 3};
    QuorumAt(l.Matched(), id, b, 0);
  }

  /** Everyone else was asked for a vote. */
  predicate Solicited(t: Trace, c: NodeId, m: Message) {
    forall p {:trigger Packet(c, p, m)} :: p in {1, 2, 3} && p != c ==> Packet(c, p, m) in t.sys.net
  }

  function Ballot(n: Node): Message {
    RequestVote(n.Term() + 1, n.id, n.log.LastIndex(), n.log.LastTerm())
  }

  function FirstAppend(n: Node): Message {
    AppendEntries(n.Term() + 1, n.id, |n.log.entries| + 1, n.Term() + 1, [], n.hardState.commitIndex, None)
  }

  predicate MayElect(t: Trace, c: NodeId, v: NodeId) {
    && c in t.sys.nodes && v in t.sys.nodes && c != v
    && Voter(t.sys.nodes[c], c) && Voter(t.sys.nodes[v], v) && t.sys.nodes[c].role != Leader
    && t.sys.nodes[v].Term() <= t.sys.nodes[c].Term()
    && t.sys.nodes[v].CandidateIsUpToDate(t.sys.nodes[c].log.LastIndex(), t.sys.nodes[c].log.LastTerm())
  }

  /** The candidate's side of a won pre-vote. */
  lemma Nominee(n: Node, c: NodeId, v: NodeId, responder: nat, p: NodeId)
    requires Voter(n, c) && v in {1, 2, 3} && v != c && p in {1, 2, 3} && p != c && responder <= n.Term()
    ensures var o := Step(PreCandidacy(n), Receive(v, PreVoteResponse(responder, n.Term() + 1, true)));
            o.node == Candidacy(PreCandidacy(n)) && Send(p, Ballot(n)) in o.actions
  {
    hide OnMessage, Step, Configuration.Quorum, LogView.LastTerm, LogView.LastIndex, Plain, Candidacy;
    ThreeQuorums(c, v);
    var m := PreCandidacy(n);
    StepIsHandle(m, Receive(v, PreVoteResponse(responder, n.Term() + 1, true)));
    WinsPreVote(m, v, responder, p);
  }

  lemma Stand(t: Trace, c: NodeId, v: NodeId) returns (u: Trace)
    requires Good(Three(), t) && MayElect(t, c, v)
    ensures Good(Three(), u) && Later(t, u)
    ensures u.sys.nodes == t.sys.nodes[c := Candidacy(PreCandidacy(t.sys.nodes[c]))]
    ensures Solicited(u, c, Ballot(t.sys.nodes[c]))
  {
    hide Good, OnTick, OnMessage, Step, Configuration.Quorum, LogView.LastTerm, LogView.LastIndex, Plain,
         PreCandidacy, Candidacy, Ballot;
    ThreeQuorums(c, v);
    var n, w := t.sys.nodes[c], t.sys.nodes[v];
    StepIsHandle(n, TickInput(Election));
    StartsPreVote(n, v);
    var a := Go(Three(), t, c, TickInput(Election));
    var m := PreCandidacy(n);
    var ask := PreVoteRequest(n.Term() + 1, c, n.log.LastIndex(), n.log.LastTerm());
    StepIsHandle(w, Receive(c, ask));
    GrantsPreVote(w, c, n.Term() + 1, n.log.LastIndex(), n.log.LastTerm());
    var b := Go(Three(), a, v, Receive(c, ask));
    var grant := PreVoteResponse(w.Term(), n.Term() + 1, true);
    assert Send(c, grant) in OnMessage(w, c, ask).actions;
    assert Packet(v, c, grant) in b.sys.net;
    u := Go(Three(), b, c, Receive(v, grant));
    forall p | p in {1, 2, 3} && p != c ensures Packet(c, p, Ballot(n)) in u.sys.net {
      Nominee(n, c, v, w.Term(), p);
    }
    Nominee(n, c, v, w.Term(), v);
  }

  /** The candidate's side of a won election. */
  lemma Winner(n: Node, c: NodeId, v: NodeId, p: NodeId)
    requires Voter(n, c) && v in {1, 2, 3} && v != c && p in {1, 2, 3} && p != c
    ensures var m := Candidacy(PreCandidacy(n));
            var o := Step(m, Receive(v, RequestVoteResponse(n.Term() + 1, true)));
            && o.node == Elected(n) && RoleChanged(Leader, n.Term() + 1) in o.actions
            && Send(p, FirstAppend(n)) in o.actions
  {
    hide OnMessage, Step, Configuration.Quorum, LogView.LastTerm, LogView.LastIndex, Idle, LogView.Term,
         Configuration.QuorumIndex, Batch, Leadership;
    ThreeQuorums(c, v);
    var m := Candidacy(PreCandidacy(n));
    StepIsHandle(m, Receive(v, RequestVoteResponse(n.Term() + 1, true)));
    ElectedIsIdle(n, c);
    WinsVote(m, v, p);
    FirstBatch(n);
  }

  /** Node `c` wins an election with the help of `v`. */
  lemma Elect(t: Trace, c: NodeId, v: NodeId) returns (u: Trace)
    requires Good(Three(), t) && MayElect(t, c, v)
    ensures Good(Three(), u) && Later(t, u)
    ensures u.sys.nodes
            == t.sys.nodes[c := Elected(t.sys.nodes[c])][v := Granted(t.sys.nodes[v], c, t.sys.nodes[c].Term() + 1)]
    ensures (c, RoleChanged(Leader, t.sys.nodes[c].Term() + 1)) in u.out
    ensures Solicited(u, c, Ballot(t.sys.nodes[c])) && Solicited(u, c, FirstAppend(t.sys.nodes[c]))
  {
    hide Good, OnMessage, Step, LogView.LastTerm, LogView.LastIndex, Candidacy, PreCandidacy, Elected, Granted,
         FirstAppend, Plain;
    var n, w, term := t.sys.nodes[c], t.sys.nodes[v], t.sys.nodes[c].Term() + 1;
    var a := Stand(t, c, v);
    StepIsHandle(w, Receive(c, Ballot(n)));
    GrantsVote(w, c, term, n.log.LastIndex(), n.log.LastTerm());
    var b := Go(Three(), a, v, Receive(c, Ballot(n)));
    var m := Candidacy(PreCandidacy(n));
    var grant := RequestVoteResponse(term, true);
    u := Go(Three(), b, c, Receive(v, grant));
    forall p | p in {1, 2, 3} && p != c ensures Packet(c, p, FirstAppend(n)) in u.sys.net {
      Winner(n, c, v, p);
    }
    Winner(n, c, v, v);
  }

  lemma FirstBatch(n: Node)
    requires Plain(n.log)
    ensures Elected(n).log.Term(|n.log.entries| + 1).Some?
    ensures Batch(Elected(n), |n.log.entries| + 2, None) == FirstAppend(n)
  {
    PlainEnds(n.log);
  }

  // ---------------------------------------------------------------- replicating

  /** The follower holds a proper prefix of the leader's log that one batch completes. */
  predicate Lags(l: Node, f: Node) {
    && |f.log.entries| < |l.log.entries| <= |f.log.entries| + MAX_APPEND_ENTRIES
    && f.log.entries == l.log.entries[..|f.log.entries|]
    && f.Term() <= l.Term() && f.hardState.commitIndex <= |f.log.entries|
    && (forall i :: 0 <= i < |l.log.entries| ==> l.log.entries[i].term <= l.Term())
    && forall i, j :: 0 <= i <= j < |l.log.entries| ==> l.log.entries[i].term <= l.log.entries[j].term
  }

  /** The batch that brings the follower up to date. */
  function Missing(l: Node, f: Node): Message
    requires Plain(l.log) && Lags(l, f)
  {
    PlainEnds(l.log);
    Batch(l, |f.log.entries| + 1, None)
  }

  lemma MissingIs(l: Node, f: Node)
    requires Plain(l.log) && Plain(f.log) && Lags(l, f)
    ensures var m, k := Missing(l, f), |f.log.entries|;
            && m.prevLogIndex == k && m.entries == l.log.entries[k..] && k + |m.entries| == |l.log.entries|
            && f.log.Term(k) == Some(m.prevLogTerm) && Consecutive(k, m.prevLogTerm, l.Term(), m.entries)
            && f.log.entries + m.entries == l.log.entries
  {
    PlainEnds(l.log);
    PlainEnds(f.log);
  }

  /** The follower with the leader's log. */
  function Copied(l: Node, f: Node): Node {
    Learned(BecomeFollower(f, l.Term(), Some(l.id)).node.(log := l.log), l.hardState.commitIndex)
  }

  function Ack(l: Node): Message {
    AppendEntriesResponse(l.Term(), true, |l.log.entries|, 0, None, None)
  }

  predicate MayReplicate(t: Trace, l: NodeId, f: NodeId, m: Message) {
    && l in t.sys.nodes && f in t.sys.nodes && l != f
    && Voter(t.sys.nodes[l], l) && Voter(t.sys.nodes[f], f) && t.sys.nodes[l].role == Leader
       && f in t.sys.nodes[l].progress
    && Lags(t.sys.nodes[l], t.sys.nodes[f]) && |t.sys.nodes[f].log.entries| + 1 < t.sys.nodes[l].progress[f].nextIndex
    && m.AppendEntries? && m.term == t.sys.nodes[l].Term() && m.leaderId == l && m.readContext.None?
    && m.prevLogIndex > |t.sys.nodes[f].log.entries| && m.leaderCommit <= m.prevLogIndex + |m.entries|
    && Packet(l, f, m) in t.sys.net
  }

  /** Follower `f` lacks what the append `m` builds on; the leader goes back to where it ends. */
  lemma Repair(t: Trace, l: NodeId, f: NodeId, m: Message) returns (u: Trace)
    requires Good(Three(), t) && MayReplicate(t, l, f, m)
    ensures Good(Three(), u) && Later(t, u)
    ensures var b, w := t.sys.nodes[l], t.sys.nodes[f];
            && u.sys.nodes == t.sys.nodes[f := BecomeFollower(w, b.Term(), Some(l)).node][l := Backed(b, f,
                  |w.log.entries| + 1)]
            && Packet(l, f, Missing(b, w)) in u.sys.net
  {
    hide Good, OnMessage, Step, LogView.LastTerm, LogView.LastIndex, LogView.Term, BecomeFollower;
    var b, w := t.sys.nodes[l], t.sys.nodes[f];
    StepIsHandle(w, Receive(l, m));
    RefusesGap(w, l, m);
    var a := Go(Three(), t, f, Receive(l, m));
    var no := AppendEntriesResponse(b.Term(), false, 0, |w.log.entries| + 1, None, None);
    StepIsHandle(b, Receive(f, no));
    BacksUp(b, f, no, |w.log.entries| + 1);
    u := Go(Three(), a, l, Receive(f, no));
  }

  /** The leader's log reaches `f`, who acknowledges it. */
  lemma Replicate(t: Trace, l: NodeId, f: NodeId, m: Message) returns (u: Trace)
    requires Good(Three(), t) && MayReplicate(t, l, f, m)
    ensures Good(Three(), u) && Later(t, u)
    ensures var b, w := t.sys.nodes[l], t.sys.nodes[f];
            && u.sys.nodes == t.sys.nodes[f := Copied(b, w)][l := Backed(b, f, |w.log.entries| + 1)]
            && Packet(f, l, Ack(b)) in u.sys.net
            && Voter(Copied(b, w), f) && Voter(Backed(b, f, |w.log.entries| + 1), l)
  {
    hide Good, OnMessage, Step, LogView.LastTerm, LogView.LastIndex, LogView.Term, Missing, Consecutive, RejectReads,
         Sorted;
    var b, w := t.sys.nodes[l], t.sys.nodes[f];
    var a := Repair(t, l, f, m);
    var d := BecomeFollower(w, b.Term(), Some(l)).node;
    MissingIs(b, w);
    MissingBatch(b, w);
    var batch := Missing(b, w);
    StepIsHandle(d, Receive(l, batch));
    TakesBatch(d, l, batch);
    u := Go(Three(), a, f, Receive(l, batch));
  }

  lemma MissingBatch(l: Node, f: Node)
    requires Plain(l.log) && Lags(l, f)
    ensures var m := Missing(l, f);
            m.AppendEntries? && m.term == l.Term() && m.leaderId == l.id && m.leaderCommit == l.hardState.commitIndex
              && m.readContext.None?
  {
  }

  /** The acknowledgement makes a quorum: the leader commits and applies its whole log. */
  lemma Commit(t: Trace, l: NodeId, f: NodeId) returns (u: Trace)
    requires Good(Three(), t) && l in t.sys.nodes && f in {1, 2, 3} && l != f
    requires var b := t.sys.nodes[l];
             && Voter(b, l) && b.role == Leader && b.progress.Keys == {1, 2, 3} && Packet(f, l, Ack(b)) in t.sys.net
             && b.hardState.commitIndex < |b.log.entries| && b.log.entries[|b.log.entries| - 1].term == b.Term()
             && b.progress[l].matchIndex == |b.log.entries|
             && forall v :: v in b.progress ==> b.progress[v].matchIndex <= |b.log.entries|
    ensures Good(Three(), u) && Later(t, u)
    ensures var b := t.sys.nodes[l];
            && u.sys.nodes == t.sys.nodes[l := Learned(Heard(b, f), |b.log.entries|)]
            && forall k {:trigger b.log.entries[k]} ::
                 b.appliedIndex <= k < |b.log.entries| ==> (l, Apply(b.log.entries[k])) in u.out
  {
    hide Good, OnMessage, Step, Configuration.QuorumIndex, LogView.LastTerm, LogView.LastIndex, LogView.Term;
    var b := t.sys.nodes[l];
    StepIsHandle(b, Receive(f, Ack(b)));
    QuorumAt(Heard(b, f).Matched(), l, f, |b.log.entries|);
    CommitsOwn(b, f, Ack(b));
    u := Go(Three(), t, l, Receive(f, Ack(b)));
  }

  // -------------------------------------------------------------------- leading

  function Leading(n: Node, v: NodeId, w: Node): Node
    requires v in n.configuration.participants
  {
    var e := Elected(n);
    Learned(Heard(Backed(e, v, |w.log.entries| + 1), v), |e.log.entries|)
  }

  function Following(n: Node, w: Node): Node {
    Copied(Elected(n), Granted(w, n.id, n.Term() + 1))
  }

  /** The voter's log is a prefix of the candidate's, at most 63 entries short of it. */
  predicate Behindhand(n: Node, w: Node) {
    && |w.log.entries| <= |n.log.entries| < |w.log.entries| + MAX_APPEND_ENTRIES
    && w.log.entries == n.log.entries[..|w.log.entries|]
    && (forall i :: 0 <= i < |n.log.entries| ==> n.log.entries[i].term <= n.Term())
    && forall i, j :: 0 <= i <= j < |n.log.entries| ==> n.log.entries[i].term <= n.log.entries[j].term
  }

  lemma LeadingIs(n: Node, c: NodeId, v: NodeId, w: Node)
    requires Voter(n, c) && Voter(w, v) && c != v && Behindhand(n, w) && w.Term() <= n.Term()
    ensures var l := Leading(n, v, w);
            && Voter(l, c) && l.role == Leader && l.Term() == n.Term() + 1 && l.pendingReads == map[]
            && l.log.entries == n.log.entries + [LogEntry(|n.log.entries| + 1, n.Term() + 1, Noop)]
            && l.hardState.commitIndex == |n.log.entries| + 1
            && l.progress.Keys == {1, 2, 3} && l.progress[v] == Progress(|n.log.entries| + 1, |n.log.entries| + 2, None)
            && (forall p :: p in {1, 2, 3} && p != c && p != v ==>
                              l.progress[p] == Progress(0, |n.log.entries| + 2, None))
            && l.recentActive == {1, 2, 3}
    ensures var f, l := Following(n, w), Leading(n, v, w);
            && Voter(f, v) && f.role == Follower && f.Term() == n.Term() + 1 && f.log == l.log
            && f.hardState.commitIndex == Greater(n.hardState.commitIndex, w.hardState.commitIndex)
  {
    hide RejectReads, Sorted, Configuration.QuorumIndex, LogView.LastTerm, LogView.LastIndex;
    ElectedIsIdle(n, c);
    PlainEnds(n.log);
    assert {1, 2, 3} + {v} == {1, 2, 3};
    assert forall i :: 0 <= i < |Elected(n).log.entries| ==> Elected(n).log.entries[i].index == i + 1;
  }

  lemma ElectedAhead(n: Node, c: NodeId, v: NodeId, w: Node)
    requires Voter(n, c) && Voter(w, v) && c != v && Behindhand(n, w) && w.Term() <= n.Term()
    ensures var e, g := Elected(n), Granted(w, c, n.Term() + 1);
            && Voter(g, v) && Lags(e, g) && e.progress.Keys == {1, 2, 3} && e.role == Leader && e.Term() == n.Term() + 1
            && e.hardState.commitIndex == n.hardState.commitIndex && e.appliedIndex == n.appliedIndex && g.log == w.log
            && e.progress[c] == Progress(|n.log.entries| + 1, |n.log.entries| + 2, None)
            && forall p :: p in {1, 2, 3} && p != c ==> e.progress[p] == Progress(0, |n.log.entries| + 2, None)
  {
    hide RejectReads, Sorted, Configuration.QuorumIndex, LogView.LastIndex, Idle;
    PlainEnds(n.log);
    ElectedIsIdle(n, c);
    AheadOf(n, Elected(n), w, Granted(w, c, n.Term() + 1));
  }

  lemma AheadOf(n: Node, e: Node, w: Node, g: Node)
    requires Behindhand(n, w) && g.log == w.log && w.hardState.commitIndex <= |w.log.entries|
    requires e.Term() == g.Term() == n.Term() + 1 && g.hardState.commitIndex == w.hardState.commitIndex
    requires e.log.entries == n.log.entries + [LogEntry(|n.log.entries| + 1, n.Term() + 1, Noop)]
    ensures Lags(e, g)
  {
    forall i | 0 <= i < |n.log.entries| ensures e.log.entries[i] == n.log.entries[i] {}
    assert e.log.entries[..|w.log.entries|] == n.log.entries[..|w.log.entries|];
  }

  /** Node `c` wins an election with the help of `v`, brings `v` up to date and commits. */
  lemma Lead(t: Trace, c: NodeId, v: NodeId) returns (u: Trace)
    requires Good(Three(), t) && MayElect(t, c, v) && Behindhand(t.sys.nodes[c], t.sys.nodes[v])
    ensures Good(Three(), u) && Later(t, u)
    ensures var n, w := t.sys.nodes[c], t.sys.nodes[v];
            && u.sys.nodes == t.sys.nodes[c := Leading(n, v, w)][v := Following(n, w)]
            && Solicited(u, c, Ballot(n)) && Solicited(u, c, FirstAppend(n))
            && (c, RoleChanged(Leader, n.Term() + 1)) in u.out
            && forall k {:trigger Leading(n, v, w).log.entries[k]} ::
                 n.appliedIndex <= k <= |n.log.entries| ==> (c, Apply(Leading(n, v, w).log.entries[k])) in u.out
  {
    hide Good, LogView.LastTerm, LogView.LastIndex, LogView.Term, Idle, Node.CandidateIsUpToDate, Elected, Granted,
         BecomeFollower, Lags, Plain, Learned, Heard, Copied;
    var n, w := t.sys.nodes[c], t.sys.nodes[v];
    var a := Elect(t, c, v);
    ElectedIsIdle(n, c);
    ElectedAhead(n, c, v, w);
    var e := Elected(n);
    LearnedLog(Backed(e, v, |w.log.entries| + 1), v, |e.log.entries|);
    var b := Replicate(a, c, v, FirstAppend(n));
    u := Commit(b, c, v);
    LastUpdates(t.sys.nodes, c, v, e, Granted(w, c, n.Term() + 1), Backed(e, v, |w.log.entries| + 1),
                Leading(n, v, w), Following(n, w));
  }

  lemma LearnedLog(b: Node, v: NodeId, k: nat)
    requires v in b.progress
    ensures Learned(Heard(b, v), k).log == b.log
  {
  }

  lemma LastUpdates(nodes: map<NodeId, Node>, c: NodeId, v: NodeId, e: Node, g: Node, b: Node, l: Node, f: Node)
    requires c != v
    ensures nodes[c := e][v := g][v := f][c := b][c := l] == nodes[c := l][v := f]
  {
  }

  /** Before any read is taken on, none is answered. */
  lemma NothingEchoed(cfg: Configuration, t: Trace, n: NodeId, term: nat, context: Bytes)
    requires Good(cfg, t) && (n, context) !in t.sys.asked
    ensures !Echoed(t.sys, n, term, context)
  {
    hide SystemInv, ValidRun, Run, CoveringRun, FreshRun, Initial, PastGrows, EmittedOk, Outputs, Echoed;
    var p, _, _ := Moments(cfg, t.events, false, NoRead, |t.events|, |t.events|);
    assert t.events[..|t.events|] == t.events;
    if Echoed(t.sys, n, term, context) {
      var r := EchoWasAsked(t.sys, p, n, term, context);
      assert false;
    }
  }

  lemma StartIsGood()
    ensures Good(Three(), Started(Three())) && forall n :: n in {1, 2, 3} ==> Voter(Boot(Three(), n), n)
  {
    ThreeQuorums(1, 2);
  }

  /** Node 1 leads term 1, takes a read on, and its question to node 2 stays under way. */
  lemma AskFirst(context: Bytes) returns (t: Trace, first: Message)
    requires context != []
    ensures Good(Three(), t) && t.sys.nodes.Keys == {1, 2, 3} && t.sys.nodes[3] == Boot(Three(), 3)
    ensures var l, f := t.sys.nodes[1], t.sys.nodes[2];
            && Voter(l, 1) && l.role == Leader && l.Term() == 1 && l.recentActive == {1, 2, 3}
            && l.hardState.commitIndex == 1 && l.pendingReads == map[context := PendingRead(1, {1})]
            && Voter(f, 2) && f.role == Follower && f.Term() == 1 && f.hardState.commitIndex == 0
            && l.log.entries == f.log.entries == [LogEntry(1, 1, Noop)]
    ensures first == AppendEntries(1, 1, 1, 1, [], 1, Some(context)) && Packet(1, 2, first) in t.sys.net
    ensures (1, RoleChanged(Leader, 1)) in t.out && (1, Apply(LogEntry(1, 1, Noop))) in t.out
  {
    hide Good, Leading, Following, OnReadIndex, Step, Configuration.Quorum, Echoed;
    StartIsGood();
    var n, w := Boot(Three(), 1), Boot(Three(), 2);
    var a := Lead(Started(Three()), 1, 2);
    var l := Leading(n, 2, w);
    LeadingIs(n, 1, 2, w);
    assert l.log.entries[0] == LogEntry(1, 1, Noop);
    ThreeQuorums(1, 2);
    NothingEchoed(Three(), a, 1, 1, context);
    StepIsHandle(l, ReadIndex(context));
    TakesRead(l, context, 2);
    t := Go(Three(), a, 1, ReadIndex(context));
    first := Batch(l, 2, Some(context));
  }

  /** Three voters at work: node 1 is elected, both it and node 2 apply its first entry,
      and a read completes at that entry, in a run that keeps both promises. */
  lemma ThreeVotersServe(context: Bytes) returns (t: Trace)
    requires context != []
    ensures Good(Three(), t)
    ensures (1, RoleChanged(Leader, 1)) in t.out && (1, ReadReady(context, 1)) in t.out
    ensures (1, Apply(LogEntry(1, 1, Noop))) in t.out && (2, Apply(LogEntry(1, 1, Noop))) in t.out
  {
    hide Good, OnMessage, Step, Configuration.Quorum;
    var a, first := AskFirst(context);
    var l, f := a.sys.nodes[1], a.sys.nodes[2];
    StepIsHandle(f, Receive(1, first));
    TakesBatch(f, 1, first);
    var d := Go(Three(), a, 2, Receive(1, first));
    assert Taken(f, first).log.entries[0] == LogEntry(1, 1, Noop);
    var answer := AppendEntriesResponse(1, true, 1, 0, None, Some(context));
    ThreeQuorums(1, 2);
    StepIsHandle(l, Receive(2, answer));
    AnswerCompletes(l, 2, answer, context);
    t := Go(Three(), d, 1, Receive(2, answer));
  }

  // ----------------------------------------------------------------- a single voter

  function Solo(n: NodeId): Configuration {
    Configuration({n}, {n}, None)
  }

  lemma SoloQuorum(n: NodeId)
    ensures Solo(n).Quorum({n}) && Solo(n).Valid() && Solo(n).QuorumIndex(map[n := 1]) == 1
  {
    assert {n} * {n} == {n};
    var matched := map[n := 1];
    assert Reached(matched, 1) == {n};
    QuorumIndexIsExact(Solo(n), matched);
    var q := Solo(n).QuorumIndex(matched);
    assert q >= 1;
    assert q in {0} + Solo(n).QuorumCandidates(matched);
  }

  function SoloCandidate(n: NodeId): Node {
    Candidacy(PreCandidacy(Boot(Solo(n), n)))
  }

  lemma SoloAdvances(n: NodeId)
    ensures var l := Leadership(SoloCandidate(n));
            AdvanceLeaderCommit(l) == SetCommit(l, 1) && Apply(LogEntry(1, 1, Noop)) in SetCommit(l, 1).actions
  {
    hide Configuration.QuorumIndex, SetCommit;
    var l := Leadership(SoloCandidate(n));
    SoloQuorum(n);
    assert l.Matched() == map[n := 1];
    SetCommitLearns(l, 1);
    assert l.log.entries[0] == LogEntry(1, 1, Noop);
  }

  lemma SoloWins(n: NodeId)
    ensures var o := BecomeLeader(SoloCandidate(n)).actions;
            RoleChanged(Leader, 1) in o && Apply(LogEntry(1, 1, Noop)) in o
  {
    hide AdvanceLeaderCommit, SetCommit, Broadcast;
    SoloAdvances(n);
    var c, l := SoloCandidate(n), Leadership(SoloCandidate(n));
    var o := BecomeLeader(c).actions;
    assert o[1] == RoleChanged(Leader, 1);
    var begun := [Persist(Append([FirstEntry(c)])), RoleChanged(Leader, 1), ResetHeartbeatTimer];
    assert o == begun + AdvanceLeaderCommit(l).actions
           + Broadcast(AdvanceLeaderCommit(l).node, AdvanceLeaderCommit(l).node.Peers(), None);
  }

  /** A lone voter needs one tick to lead term 1, and to commit and apply its first entry. */
  lemma SingleVoterApplies(n: NodeId) returns (t: Trace)
    ensures Good(Solo(n), t) && |t.events| == 1
    ensures (n, RoleChanged(Leader, 1)) in t.out && (n, Apply(LogEntry(1, 1, Noop))) in t.out
  {
    hide BecomeLeader, Step, Configuration.Quorum, ValidRun, CoveringRun, FreshRun;
    SoloQuorum(n);
    SoloWins(n);
    SoloStarts(n);
    var node := Boot(Solo(n), n);
    StepIsHandle(node, TickInput(Election));
    t := Go(Solo(n), Started(Solo(n)), n, TickInput(Election));
  }

  lemma SoloStarts(n: NodeId)
    ensures Good(Solo(n), Started(Solo(n)))
    ensures var o := BecomeLeader(SoloCandidate(n)).actions;
            forall a :: a in o ==> a in OnTick(Boot(Solo(n), n), Election).actions
  {
    hide BecomeLeader;
    SoloQuorum(n);
  }
}
