/** Proposals over every run: every command in a log, on the wire or applied is one a
    leader took, and a leader confirms a proposal exactly when it applies its entry. */
module RaftProposals {
  import opened Wrappers
  import opened Ordering
  import opened RaftTypes
  import opened RaftLog
  import opened RaftNode
  import opened RaftCluster
  import opened RaftElections
  import opened RaftTheorems
  import opened RaftPreVotes
  import StableStore

  // ---------------------------------------------------------------- what is vouched for

  /** The commands among the entries are all in `p`. */
  predicate Vouched(p: set<LogEntry>, entries: seq<LogEntry>) {
    forall e {:trigger e in entries} :: e in entries && e.payload.Command? ==> e in p
  }

  predicate VouchedMutation(p: set<LogEntry>, m: StorageMutation) {
    match m
    case Append(entries) => Vouched(p, entries)
    case TruncateAndAppend(_, entries) => Vouched(p, entries)
    case CompactSnapshot(_, retained) => Vouched(p, retained)
    case InstallReceived(_, retained, _) => Vouched(p, retained)
    case SetHardState(_) => true
  }

  predicate VouchedAction(p: set<LogEntry>, a: Action) {
    match a
    case Persist(m) => VouchedMutation(p, m)
    case Send(_, m) => m.AppendEntries? ==> Vouched(p, m.entries)
    case Apply(e) => e.payload.Command? ==> e in p
    case _ => true
  }

  predicate Sound(p: set<LogEntry>, actions: seq<Action>) {
    forall a {:trigger a in actions} :: a in actions ==> VouchedAction(p, a)
  }

  /** A confirmation names the entry applied right before it. */
  predicate Confirms(a: Action, c: Action) {
    && a.Apply? && a.entry.payload.Command? && c.ProposalCommitted?
    && c.id == a.entry.payload.id && c.index == a.entry.index
  }

  predicate Confirmed(actions: seq<Action>) {
    forall i {:trigger actions[i]} :: 0 <= i < |actions| && actions[i].ProposalCommitted? ==>
      i > 0 && Confirms(actions[i - 1], actions[i])
  }

  /** Every applied command is confirmed. */
  predicate AllConfirmed(actions: seq<Action>) {
    forall a {:trigger a in actions} :: a in actions && a.Apply? && a.entry.payload.Command? ==>
      ProposalCommitted(a.entry.payload.id, a.entry.index) in actions
  }

  /** A leader stays one or follows, and confirms what it applies as long as it leads. */
  predicate Answers(n: Node, o: Out) {
    && (n.role == Leader ==> o.node.role == Leader || o.node.role == Follower)
    && (n.role == Follower ==> o.node.role == Follower)
    && (n.role == Leader && o.node.role == Leader ==> AllConfirmed(o.actions))
  }

  predicate Keeps(p: set<LogEntry>, n: Node, o: Out) {
    Vouched(p, n.log.entries) ==> Vouched(p, o.node.log.entries) && Sound(p, o.actions)
  }

  predicate Fair(p: set<LogEntry>, n: Node, o: Out) {
    Keeps(p, n, o) && Confirmed(o.actions) && Answers(n, o)
  }

  lemma ConfirmedConcat(a: seq<Action>, b: seq<Action>)
    requires Confirmed(a) && Confirmed(b)
    ensures Confirmed(a + b)
  {
    hide Confirms;
    var all := a + b;
    forall i | 0 <= i < |all| && all[i].ProposalCommitted? ensures i > 0 && Confirms(all[i - 1], all[i]) {
      if i < |a| {
        assert all[i] == a[i] && (i > 0 ==> all[i - 1] == a[i - 1]);
      } else {
        assert all[i] == b[i - |a|] && (i - |a| > 0 ==> all[i - 1] == b[i - |a| - 1]);
      }
    }
  }

  lemma FairThen(p: set<LogEntry>, n: Node, a: Out, b: Out)
    requires Fair(p, n, a) && Fair(p, a.node, b)
    ensures Fair(p, n, Then(a, b))
  {
    hide Confirmed, VouchedAction;
    ConfirmedConcat(a.actions, b.actions);
  }

  /** Nothing applied or confirmed, nothing logged, and the role kept or given up. */
  predicate Aside(n: Node, o: Out) {
    && o.node.log.entries == n.log.entries && (o.node.role == n.role || o.node.role == Follower)
    && forall a {:trigger a in o.actions} :: a in o.actions ==>
         && !a.Apply? && !a.ProposalCommitted? && (a.Persist? ==> a.mutation.SetHardState?)
         && (a.Send? ==> !a.message.AppendEntries?)
  }

  lemma AsideFair(p: set<LogEntry>, n: Node, o: Out)
    requires Aside(n, o)
    ensures Fair(p, n, o)
  {
    forall i | 0 <= i < |o.actions| ensures !o.actions[i].ProposalCommitted? {
      assert o.actions[i] in o.actions;
    }
  }

  // ------------------------------------------------------------------------- pieces

  lemma EntryVouched(p: set<LogEntry>, log: LogView, i: nat)
    requires Vouched(p, log.entries) && log.Entry(i).Some?
    ensures log.Entry(i).value.payload.Command? ==> log.Entry(i).value in p
  {
    assert log.Entry(i).value in log.entries;
  }

  lemma PartVouched(p: set<LogEntry>, entries: seq<LogEntry>, i: nat, j: nat)
    requires Vouched(p, entries) && i <= j <= |entries|
    ensures Vouched(p, entries[i..j])
  {
    assert forall e :: e in entries[i..j] ==> e in entries;
  }

  lemma RestVouched(p: set<LogEntry>, log: LogView, i: nat)
    requires Vouched(p, log.entries)
    ensures Vouched(p, log.EntriesAfter(i))
  {
    if log.baseIndex <= i && i - log.baseIndex <= |log.entries| {
      PartVouched(p, log.entries, i - log.baseIndex, |log.entries|);
      assert log.entries[i - log.baseIndex..|log.entries|] == log.entries[i - log.baseIndex..];
    }
  }

  lemma {:induction false} ApplyFair(p: set<LogEntry>, n: Node)
    ensures Fair(p, n, ApplyCommitted(n)) && ApplyCommitted(n).node.role == n.role
    ensures n.role == Leader ==> AllConfirmed(ApplyCommitted(n).actions)
    decreases n.hardState.commitIndex - n.appliedIndex
  {
    hide LogView.Entry;
    if n.appliedIndex < n.hardState.commitIndex && n.log.Entry(n.appliedIndex + 1).Some? {
      var m, entry := n.(appliedIndex := n.appliedIndex + 1), n.log.Entry(n.appliedIndex + 1).value;
      ApplyFair(p, m);
      if Vouched(p, n.log.entries) {
        EntryVouched(p, n.log, n.appliedIndex + 1);
      }
      var first := [Apply(entry)] + (if n.role == Leader && entry.payload.Command?
                                     then [ProposalCommitted(entry.payload.id, entry.index)] else []);
      FirstFair(p, n, Out(m, first), entry);
      FairThen(p, n, Out(m, first), ApplyCommitted(m));
    }
  }

  lemma FirstFair(p: set<LogEntry>, n: Node, o: Out, entry: LogEntry)
    requires o.node.role == n.role && o.node.log == n.log
    requires Vouched(p, n.log.entries) && entry.payload.Command? ==> entry in p
    requires o.actions == [Apply(entry)] + (if n.role == Leader && entry.payload.Command?
                                            then [ProposalCommitted(entry.payload.id, entry.index)] else [])
    ensures Fair(p, n, o)
  {
  }

  lemma SetCommitFair(p: set<LogEntry>, n: Node, commit: nat)
    ensures Fair(p, n, SetCommit(n, commit))
  {
    hide LogView.LastIndex, ApplyCommitted, Fair;
    if commit <= n.hardState.commitIndex || commit > n.log.LastIndex() {
      AsideFair(p, n, SetCommit(n, commit));
    } else {
      var hs := n.hardState.(commitIndex := commit);
      var m := n.(hardState := hs);
      AsideFair(p, n, Out(m, [Persist(SetHardState(hs))]));
      ApplyFair(p, m);
      FairThen(p, n, Out(m, [Persist(SetHardState(hs))]), ApplyCommitted(m));
    }
  }

  lemma AdvanceFair(p: set<LogEntry>, n: Node)
    ensures Fair(p, n, AdvanceLeaderCommit(n))
  {
    hide SetCommit, Configuration.QuorumIndex, Node.Matched, LogView.Term, Fair;
    SetCommitFair(p, n, n.configuration.QuorumIndex(n.Matched()));
    AsideFair(p, n, Out(n, []));
  }

  /** Sends only, and every append of vouched entries. */
  predicate Delivers(p: set<LogEntry>, n: Node, actions: seq<Action>) {
    && (forall a {:trigger a in actions} :: a in actions ==> a.Send? || a.Fatal?)
    && (Vouched(p, n.log.entries) ==> Sound(p, actions))
  }

  lemma DeliversFair(p: set<LogEntry>, n: Node, actions: seq<Action>)
    requires Delivers(p, n, actions)
    ensures Fair(p, n, Out(n, actions))
  {
    forall i | 0 <= i < |actions| ensures !actions[i].ProposalCommitted? {
      assert actions[i] in actions;
    }
  }

  lemma BatchVouched(p: set<LogEntry>, log: LogView, next: nat)
    requires Vouched(p, log.entries)
    ensures Vouched(p, log.EntriesFrom(next, MAX_APPEND_ENTRIES))
  {
    hide Vouched, LogView.EntriesAfter;
    if next > 0 {
      RestVouched(p, log, next - 1);
      var rest := log.EntriesAfter(next - 1);
      if |rest| > MAX_APPEND_ENTRIES {
        PartVouched(p, rest, 0, MAX_APPEND_ENTRIES);
      }
    } else {
      NoneVouched(p);
    }
  }

  lemma NoneVouched(p: set<LogEntry>)
    ensures Vouched(p, [])
  {
  }

  lemma AppendDelivers(p: set<LogEntry>, n: Node, peer: NodeId, context: Option<Bytes>)
    ensures Delivers(p, n, SendAppend(n, peer, context))
  {
    hide LogView.Term, LogView.LastIndex, LogView.EntriesFrom;
    if peer in n.progress && Vouched(p, n.log.entries) {
      var next := if n.progress[peer].nextIndex <= n.log.LastIndex() + 1 then n.progress[peer].nextIndex
          else n.log.LastIndex() + 1;
      BatchVouched(p, n.log, next);
    }
  }

  lemma {:induction false} BroadcastDelivers(p: set<LogEntry>, n: Node, peers: seq<NodeId>, context: Option<Bytes>)
    ensures Delivers(p, n, Broadcast(n, peers, context))
    decreases |peers|
  {
    hide SendAppend, VouchedAction, Vouched;
    if peers != [] {
      AppendDelivers(p, n, peers[0], context);
      BroadcastDelivers(p, n, peers[1..], context);
    }
  }

  lemma FollowAside(n: Node, term: nat, leader: Option<NodeId>)
    ensures Aside(n, BecomeFollower(n, term, leader)) && BecomeFollower(n, term, leader).node.role == Follower
  {
    hide Sorted;
  }

  lemma ResetFair(p: set<LogEntry>, n: Node, term: nat)
    ensures Fair(p, n, FollowAndReset(n, term))
  {
    hide BecomeFollower, Fair;
    FollowAside(n, term, None);
    AsideFair(p, n, FollowAndReset(n, term));
  }

  /** A leader's new entry: the log grows by it, and it is persisted. */
  lemma AppendedFair(p: set<LogEntry>, n: Node, m: Node, entry: LogEntry, more: seq<Action>)
    requires m.log.entries == n.log.entries + [entry] && m.role == Leader && n.role != Follower
    requires entry.payload.Command? ==> entry in p
    requires forall a {:trigger a in more} :: a in more ==> a.RoleChanged? || a.ResetHeartbeatTimer?
    ensures Fair(p, n, Out(m, [Persist(Append([entry]))] + more))
  {
    var actions := [Persist(Append([entry]))] + more;
    forall i | 0 <= i < |actions| ensures !actions[i].ProposalCommitted? {
      assert actions[i] in actions;
    }
  }

  lemma GrowThenSend(p: set<LogEntry>, n: Node, begun: Out)
    requires Fair(p, n, begun)
    ensures var advanced := AdvanceLeaderCommit(begun.node);
            Fair(p, n, Then(Then(begun, advanced),
                            Out(advanced.node, Broadcast(advanced.node, advanced.node.Peers(), None))))
  {
    hide AdvanceLeaderCommit, Broadcast, Fair, Delivers;
    var advanced := AdvanceLeaderCommit(begun.node);
    AdvanceFair(p, begun.node);
    FairThen(p, n, begun, advanced);
    BroadcastDelivers(p, advanced.node, advanced.node.Peers(), None);
    DeliversFair(p, advanced.node, Broadcast(advanced.node, advanced.node.Peers(), None));
    FairThen(p, n, Then(begun, advanced), Out(advanced.node, Broadcast(advanced.node, advanced.node.Peers(), None)));
  }

  lemma LeaderFair(p: set<LogEntry>, n: Node)
    requires n.role != Follower
    ensures Fair(p, n, BecomeLeader(n))
  {
    hide AdvanceLeaderCommit, Broadcast, InitialProgress, LogView.LastIndex, Fair;
    var entry := LogEntry(n.log.LastIndex() + 1, n.Term(), Noop);
    var m := n.(role := Leader, leaderId := Some(n.id), votes := {}, pendingReads := map[],
                log := n.log.Append([entry]), progress := InitialProgress(n, entry.index),
                recentActive := n.configuration.participants);
    var more := [RoleChanged(Leader, n.Term()), ResetHeartbeatTimer];
    AppendedFair(p, n, m, entry, more);
    assert [Persist(Append([entry]))] + more
        == [Persist(Append([entry])), RoleChanged(Leader, n.Term()), ResetHeartbeatTimer];
    GrowThenSend(p, n, Out(m, [Persist(Append([entry])), RoleChanged(Leader, n.Term()), ResetHeartbeatTimer]));
  }

  // ----------------------------------------------------------------------- handlers

  lemma VoteRequestFair(p: set<LogEntry>, n: Node, from: NodeId, term: nat, c: NodeId, li: nat, lt: nat)
    ensures Fair(p, n, OnVoteRequest(n, from, term, c, li, lt))
  {
    hide BecomeFollower, LogView.LastIndex, LogView.LastTerm, Fair;
    FollowAside(n, term, None);
    AsideFair(p, n, OnVoteRequest(n, from, term, c, li, lt));
  }

  lemma VoteResponseFair(p: set<LogEntry>, n: Node, from: NodeId, term: nat, granted: bool)
    ensures Fair(p, n, OnVoteResponse(n, from, term, granted))
  {
    hide FollowAndReset, BecomeLeader, Configuration.Quorum, Fair;
    var m := n.(votes := n.votes + {from});
    if term > n.Term() {
      ResetFair(p, n, term);
    } else if n.role == Candidate && term == n.Term() && granted && m.configuration.Quorum(m.votes) {
      LeaderFair(p, m);
      FairSame(p, n, m, BecomeLeader(m));
    } else {
      AsideFair(p, n, OnVoteResponse(n, from, term, granted));
    }
  }

  lemma FairSame(p: set<LogEntry>, n: Node, m: Node, o: Out)
    requires Fair(p, m, o) && m.log == n.log && (m.role == n.role || (n.role != Leader && n.role != Follower))
    ensures Fair(p, n, o)
  {
  }

  lemma ElectionFair(p: set<LogEntry>, n: Node, term: nat)
    requires n.role == PreCandidate
    ensures Fair(p, n, StartElection(n, term))
  {
    hide BecomeLeader, LogView.LastIndex, LogView.LastTerm, Configuration.Quorum, Fair;
    var hs := n.hardState.(currentTerm := term, votedFor := Some(n.id));
    var m := n.(hardState := hs, role := Candidate, campaignTerm := None, votes := {n.id});
    var begun := Out(m, [Persist(SetHardState(hs)), RoleChanged(Candidate, term), ResetElectionTimer]);
    CampaignFair(p, n, begun);
    if m.configuration.Quorum(m.votes) {
      LeaderFair(p, m);
      FairThen(p, n, begun, BecomeLeader(m));
    } else {
      CampaignFair(p, n, StartElection(n, term));
    }
  }

  lemma CampaignFair(p: set<LogEntry>, n: Node, o: Out)
    requires n.role != Leader && n.role != Follower && o.node.log == n.log
    requires forall a {:trigger a in o.actions} :: a in o.actions ==>
               || (a.Persist? && a.mutation.SetHardState?) || a.RoleChanged? || a.ResetElectionTimer?
               || (a.Send? && !a.message.AppendEntries?)
    ensures Fair(p, n, o)
  {
    forall i | 0 <= i < |o.actions| ensures !o.actions[i].ProposalCommitted? {
      assert o.actions[i] in o.actions;
    }
  }

  lemma PreVoteResponseFair(p: set<LogEntry>, n: Node, from: NodeId, rt: nat, t: nat, granted: bool)
    ensures Fair(p, n, OnPreVoteResponse(n, from, rt, t, granted))
  {
    hide FollowAndReset, StartElection, Configuration.Quorum, Fair;
    var m := n.(votes := n.votes + {from});
    if rt > n.Term() {
      ResetFair(p, n, rt);
    } else if n.role == PreCandidate && n.campaignTerm == Some(t) && granted && m.configuration.Quorum(m.votes) {
      ElectionFair(p, m, t);
      FairSame(p, n, m, StartElection(m, t));
    } else {
      AsideFair(p, n, OnPreVoteResponse(n, from, rt, t, granted));
    }
  }

  lemma FinishFair(p: set<LogEntry>, n: Node, from: NodeId, m: Message)
    requires m.AppendEntries?
    ensures Fair(p, n, FinishAppend(n, from, m))
  {
    hide SetCommit, LogView.LastIndex, Fair;
    var last := n.log.LastIndex();
    var c := SetCommit(n, if m.leaderCommit <= last then m.leaderCommit else last);
    SetCommitFair(p, n, if m.leaderCommit <= last then m.leaderCommit else last);
    var reply := [Send(from, AppendEntriesResponse(c.node.Term(), true, m.prevLogIndex + |m.entries|, 0, None,
                                                   m.readContext))];
    AsideFair(p, c.node, Out(c.node, reply));
    FairThen(p, n, c, Out(c.node, reply));
  }

  lemma WriteFair(p: set<LogEntry>, n: Node, from: nat, suffix: seq<LogEntry>)
    requires Vouched(p, suffix)
    ensures Fair(p, n, WriteSuffix(n, from, suffix))
  {
    hide LogView.LastIndex;
    var o := WriteSuffix(n, from, suffix);
    var keep := if from <= n.log.baseIndex then 0 else from - (n.log.baseIndex + 1);
    if keep <= |n.log.entries| && Vouched(p, n.log.entries) {
      PartVouched(p, n.log.entries, 0, keep);
      assert n.log.entries[0..keep] == n.log.entries[..keep];
    }
  }

  lemma PreviousFair(p: set<LogEntry>, n: Node, from: NodeId, m: Message)
    requires m.AppendEntries? && Vouched(p, m.entries)
    ensures Fair(p, n, CheckPrevious(n, from, m))
  {
    hide FinishAppend, ScanFrom, ValidEntrySequence, LogView.Term, LogView.LastIndex, LogView.FirstIndexOfTerm,
         WriteSuffix, Fair, Vouched;
    FinishFair(p, n, from, m);
    var scan := ScanFrom(n.log, n.hardState.commitIndex, m.entries, 0);
    if scan.ChangedAt? {
      var at := if scan.position <= |m.entries| then scan.position else |m.entries|;
      PartVouched(p, m.entries, at, |m.entries|);
      assert m.entries[at..|m.entries|] == m.entries[at..];
      var w := WriteSuffix(n, scan.index, m.entries[at..]);
      WriteFair(p, n, scan.index, m.entries[at..]);
      FinishFair(p, w.node, from, m);
      FairThen(p, n, w, FinishAppend(w.node, from, m));
    }
    var o := CheckPrevious(n, from, m);
    if Aside(n, o) {
      AsideFair(p, n, o);
    }
  }

  lemma AppendFair(p: set<LogEntry>, n: Node, from: NodeId, m: Message)
    requires m.AppendEntries? && Vouched(p, m.entries)
    ensures Fair(p, n, OnAppendEntries(n, from, m))
  {
    hide BecomeFollower, CheckPrevious, LogView.LastIndex, Fair, Vouched;
    if m.leaderId != from || m.term < n.Term() {
      AsideFair(p, n, OnAppendEntries(n, from, m));
    } else {
      var f := BecomeFollower(n, m.term, Some(from));
      FollowAside(n, m.term, Some(from));
      var reset := Then(f, Out(f.node, [ResetElectionTimer]));
      AsideFair(p, n, reset);
      PreviousFair(p, f.node, from, m);
      FairThen(p, n, reset, CheckPrevious(f.node, from, m));
    }
  }

  lemma ReportFair(p: set<LogEntry>, n: Node, from: NodeId, m: Message)
    requires m.AppendEntriesResponse?
    ensures Fair(p, n, MatchReported(n, from, m)) && Fair(p, n, ConflictReported(n, from, m))
  {
    hide AdvanceLeaderCommit, SendAppend, ResumeIndex, LogView.LastIndex, Fair, Delivers;
    var q := if from in n.progress then n.(progress := n.progress[from := Raised(n.progress[from], m.matchIndex)])
        else n;
    AdvanceThenSend(p, n, q, from, m.matchIndex < AdvanceLeaderCommit(q).node.log.LastIndex());
    var next := ResumeIndex(n, m);
    var r := if from in n.progress then n.(progress := n.progress[from := Lowered(n.progress[from], next)]) else n;
    AppendDelivers(p, r, from, None);
    DeliversFair(p, r, SendAppend(r, from, None));
    FairSame(p, n, r, Out(r, SendAppend(r, from, None)));
  }

  lemma AdvanceThenSend(p: set<LogEntry>, n: Node, q: Node, from: NodeId, send: bool)
    requires q.log == n.log && q.role == n.role
    ensures var advanced := AdvanceLeaderCommit(q);
            Fair(p, n, Then(advanced, Out(advanced.node, if send then SendAppend(advanced.node, from, None) else [])))
  {
    hide AdvanceLeaderCommit, SendAppend, Fair, Delivers;
    var advanced := AdvanceLeaderCommit(q);
    var sends := if send then SendAppend(advanced.node, from, None) else [];
    AdvanceFair(p, q);
    AppendDelivers(p, advanced.node, from, None);
    DeliversFair(p, advanced.node, SendAppend(advanced.node, from, None));
    AsideFair(p, advanced.node, Out(advanced.node, []));
    FairThen(p, q, advanced, Out(advanced.node, sends));
    FairSame(p, n, q, Then(advanced, Out(advanced.node, sends)));
  }

  lemma ReadAckAside(n: Node, from: NodeId, context: Bytes)
    ensures Aside(n, AcknowledgeRead(n, from, context)) && AcknowledgeRead(n, from, context).node.role == n.role
  {
    hide Configuration.Quorum;
  }

  lemma AppendResponseFair(p: set<LogEntry>, n: Node, from: NodeId, m: Message)
    requires m.AppendEntriesResponse?
    ensures Fair(p, n, OnAppendResponse(n, from, m))
  {
    hide FollowAndReset, AcknowledgeRead, MatchReported, ConflictReported, Fair;
    if m.term > n.Term() {
      ResetFair(p, n, m.term);
    } else if n.role != Leader || m.term != n.Term() {
      AsideFair(p, n, Out(n, []));
    } else {
      var active := n.(recentActive := n.recentActive + {from});
      var read := if m.readContext.Some? then AcknowledgeRead(active, from, m.readContext.value) else Out(active, []);
      if m.readContext.Some? {
        ReadAckAside(active, from, m.readContext.value);
      }
      AsideFair(p, n, read);
      ReportFair(p, read.node, from, m);
      FairThen(p, n, read, if m.success then MatchReported(read.node, from, m)
                           else ConflictReported(read.node, from, m));
    }
  }

  /** Compaction: what is left of the log is persisted. */
  lemma CompactFair(p: set<LogEntry>, n: Node, o: Out, i: nat, term: nat, retain: bool)
    requires o.node.log == n.log.Compact(i, term, retain) && o.node.role == n.role
    requires forall a {:trigger a in o.actions} :: a in o.actions ==>
               || (a.Persist? && (a.mutation.CompactSnapshot? || a.mutation.InstallReceived?)
                   && a.mutation.retainedEntries == o.node.log.entries)
               || (a.Send? && !a.message.AppendEntries?)
    ensures Fair(p, n, o)
  {
    hide LogView.EntriesAfter, Vouched;
    NoneVouched(p);
    if Vouched(p, n.log.entries) {
      RestVouched(p, n.log, i);
    }
    forall k | 0 <= k < |o.actions| ensures !o.actions[k].ProposalCommitted? {
      assert o.actions[k] in o.actions;
    }
  }

  lemma ReceivedFair(p: set<LogEntry>, n: Node, from: NodeId, s: PersistentSnapshot)
    ensures Fair(p, n, InstallReceivedSnapshot(n, from, s))
  {
    hide LogView.Term, LogView.Compact, Fair;
    var d := s.metadata;
    CompactFair(p, n, InstallReceivedSnapshot(n, from, s), d.lastIncludedIndex, d.lastIncludedTerm,
                n.log.Term(d.lastIncludedIndex) == Some(d.lastIncludedTerm));
  }

  lemma AppendChunkFair(p: set<LogEntry>, n: Node, from: NodeId, m: Message, have: Bytes)
    requires m.InstallSnapshot?
    ensures Fair(p, n, AppendChunk(n, from, m, have))
  {
    hide Sha256, InstallReceivedSnapshot, Fair;
    var o := AppendChunk(n, from, m, have);
    ReceivedFair(p, n, from, PersistentSnapshot(m.metadata, have + m.data));
    if o != InstallReceivedSnapshot(n, from, PersistentSnapshot(m.metadata, have + m.data)) {
      AsideFair(p, n, o);
    }
  }

  lemma ChunkFair(p: set<LogEntry>, n: Node, from: NodeId, m: Message)
    requires m.InstallSnapshot?
    ensures Fair(p, n, ReceiveChunk(n, from, m))
  {
    hide AppendChunk, Fair;
    var o, d := ReceiveChunk(n, from, m), m.metadata;
    var same := n.incomingSnapshot.Some? && n.incomingSnapshot.value.metadata == d;
    var r := if m.offset == 0 && !same then n.(incomingSnapshot := Some(IncomingSnapshot(d, []))) else n;
    if r.incomingSnapshot.Some? {
      AppendChunkFair(p, r, from, m, r.incomingSnapshot.value.data);
      FairSame(p, n, r, AppendChunk(r, from, m, r.incomingSnapshot.value.data));
    }
    if Aside(n, o) {
      AsideFair(p, n, o);
    }
  }

  lemma InstallFair(p: set<LogEntry>, n: Node, from: NodeId, m: Message)
    requires m.InstallSnapshot?
    ensures Fair(p, n, OnInstallSnapshot(n, from, m))
  {
    hide BecomeFollower, ReceiveChunk, Fair;
    if m.leaderId != from || m.term < n.Term() {
      AsideFair(p, n, OnInstallSnapshot(n, from, m));
    } else {
      var f := BecomeFollower(n, m.term, Some(from));
      FollowAside(n, m.term, Some(from));
      var reset := Then(f, Out(f.node, [ResetElectionTimer]));
      AsideFair(p, n, reset);
      ChunkFair(p, f.node, from, m);
      FairThen(p, n, reset, ReceiveChunk(f.node, from, m));
    }
  }

  lemma SnapshotResponseFair(p: set<LogEntry>, n: Node, from: NodeId, m: Message)
    requires m.InstallSnapshotResponse?
    ensures Fair(p, n, OnSnapshotResponse(n, from, m))
  {
    hide FollowAndReset, AdvanceLeaderCommit, SendAppend, Fair, Delivers;
    var active := n.(recentActive := n.recentActive + {from});
    if m.term > n.Term() {
      ResetFair(p, n, m.term);
    } else if n.role != Leader || m.term != n.Term() || from !in active.progress {
      AsideFair(p, n, OnSnapshotResponse(n, from, m));
    } else if m.done && m.accepted {
      var q := active.(progress := active.progress[from := Raised(active.progress[from], m.matchIndex)]);
      AdvanceThenSend(p, n, q, from, true);
    } else {
      var q := active.(progress := active.progress[from :=
                 active.progress[from].(snapshotOffset := Some(if m.accepted then m.nextOffset else 0))]);
      AppendDelivers(p, q, from, None);
      DeliversFair(p, q, SendAppend(q, from, None));
      FairSame(p, n, q, Out(q, SendAppend(q, from, None)));
    }
  }

  /** The entry a leader makes of a proposal. */
  function Entry(n: Node, id: nat, command: Bytes): LogEntry {
    LogEntry(n.log.LastIndex() + 1, n.Term(), Command(id, command))
  }

  lemma ProposeFair(p: set<LogEntry>, n: Node, id: nat, command: Bytes)
    requires n.role == Leader ==> Entry(n, id, command) in p
    ensures Fair(p, n, OnPropose(n, id, command))
  {
    hide AdvanceLeaderCommit, Broadcast, LogView.LastIndex, Fair;
    if n.role != Leader {
      AsideFair(p, n, OnPropose(n, id, command));
    } else {
      var entry := Entry(n, id, command);
      var m := n.(log := n.log.Append([entry]),
                  progress := if n.id in n.progress
                              then n.progress[n.id := n.progress[n.id].(matchIndex := entry.index,
                                                                        nextIndex := entry.index + 1)]
                              else n.progress);
      AppendedFair(p, n, m, entry, []);
      assert [Persist(Append([entry]))] + [] == [Persist(Append([entry]))];
      GrowThenSend(p, n, Out(m, [Persist(Append([entry]))]));
    }
  }

  lemma ReadIndexFair(p: set<LogEntry>, n: Node, context: Bytes)
    ensures Fair(p, n, OnReadIndex(n, context))
  {
    hide Broadcast, LogView.Term, Configuration.Quorum, Fair, Delivers;
    var m := n.(pendingReads := n.pendingReads[context := PendingRead(n.hardState.commitIndex, {n.id})]);
    BroadcastDelivers(p, m, m.Peers(), Some(context));
    DeliversFair(p, m, Broadcast(m, m.Peers(), Some(context)));
    FairSame(p, n, m, Out(m, Broadcast(m, m.Peers(), Some(context))));
    var o := OnReadIndex(n, context);
    if o != Out(m, Broadcast(m, m.Peers(), Some(context))) {
      AsideFair(p, n, o);
    }
  }

  lemma BuiltFair(p: set<LogEntry>, n: Node, s: PersistentSnapshot)
    ensures Fair(p, n, OnSnapshotBuilt(n, s))
  {
    hide LogView.Term, LogView.Compact, PersistentSnapshot.Validate, Fair;
    var o, d := OnSnapshotBuilt(n, s), s.metadata;
    if o == Out(n, [SnapshotRejected]) {
      AsideFair(p, n, o);
    } else {
      CompactFair(p, n, o, d.lastIncludedIndex, d.lastIncludedTerm, true);
    }
  }

  /** Fair but for a follower that sets out to lead. */
  predicate Proper(p: set<LogEntry>, n: Node, o: Out) {
    && Keeps(p, n, o) && Confirmed(o.actions)
    && (n.role == Leader && o.node.role == Leader ==> AllConfirmed(o.actions))
  }

  lemma PreVoteProper(p: set<LogEntry>, n: Node)
    requires n.role != Leader
    ensures Proper(p, n, StartPreVote(n))
  {
    hide StartElection, LogView.LastIndex, LogView.LastTerm, Configuration.Quorum, Keeps, Confirmed, AllConfirmed;
    var m := n.(role := PreCandidate, leaderId := None, campaignTerm := Some(n.Term() + 1), votes := {n.id});
    var begun := Out(m, [RoleChanged(PreCandidate, n.Term()), ResetElectionTimer]);
    CampaignFair(p, m, begun);
    if m.configuration.Quorum(m.votes) {
      ElectionFair(p, m, n.Term() + 1);
      FairThen(p, m, begun, StartElection(m, n.Term() + 1));
    } else {
      CampaignFair(p, m, StartPreVote(n));
    }
    assert Fair(p, m, StartPreVote(n));
    KeepsSame(p, n, m, StartPreVote(n));
  }

  lemma KeepsSame(p: set<LogEntry>, n: Node, m: Node, o: Out)
    requires Keeps(p, m, o) && m.log == n.log
    ensures Keeps(p, n, o)
  {
  }

  lemma TickProper(p: set<LogEntry>, n: Node, tick: Tick)
    ensures Proper(p, n, OnTick(n, tick))
  {
    hide StartPreVote, FollowAndReset, Broadcast, Configuration.Quorum, Fair, Delivers, Proper;
    var m := n.(recentActive := {n.id});
    if tick == Election && n.role != Leader {
      PreVoteProper(p, n);
    } else {
      ResetFair(p, n, n.Term());
      BroadcastDelivers(p, n, n.Peers(), None);
      DeliversFair(p, n, Broadcast(n, n.Peers(), None));
      BroadcastDelivers(p, m, m.Peers(), None);
      DeliversFair(p, m, Broadcast(m, m.Peers(), None));
      FairSame(p, n, m, Out(m, Broadcast(m, m.Peers(), None)));
      AsideFair(p, n, Out(n, [ResetHeartbeatTimer]));
      AsideFair(p, n, Out(n, []));
      FairThen(p, n, Out(n, Broadcast(n, n.Peers(), None)), Out(n, [ResetHeartbeatTimer]));
      FairIsProper(p, n, OnTick(n, tick));
    }
  }

  lemma FairIsProper(p: set<LogEntry>, n: Node, o: Out)
    requires Fair(p, n, o)
    ensures Proper(p, n, o)
  {
  }

  lemma MessageProper(p: set<LogEntry>, n: Node, from: NodeId, m: Message)
    requires m.AppendEntries? ==> Vouched(p, m.entries)
    ensures Proper(p, n, OnMessage(n, from, m))
  {
    hide Proper, Fair, OnPreVoteRequest, OnPreVoteResponse, OnVoteRequest, OnVoteResponse, OnAppendEntries,
         OnAppendResponse, OnInstallSnapshot, OnSnapshotResponse, Vouched;
    if !n.configuration.Contains(from) || from == n.id {
      AsideFair(p, n, Out(n, []));
    } else {
      match m {
        case PreVoteRequest(t, c, i, lt) => PreVoteRequestFair(p, n, from, t, c, i, lt);
        case PreVoteResponse(rt, t, granted) => PreVoteResponseFair(p, n, from, rt, t, granted);
        case RequestVote(t, c, i, lt) => VoteRequestFair(p, n, from, t, c, i, lt);
        case RequestVoteResponse(t, granted) => VoteResponseFair(p, n, from, t, granted);
        case AppendEntries(_, _, _, _, _, _, _) => AppendFair(p, n, from, m);
        case AppendEntriesResponse(_, _, _, _, _, _) => AppendResponseFair(p, n, from, m);
        case InstallSnapshot(_, _, _, _, _, _) => InstallFair(p, n, from, m);
        case InstallSnapshotResponse(_, _, _, _, _) => SnapshotResponseFair(p, n, from, m);
      }
    }
    FairIsProper(p, n, OnMessage(n, from, m));
  }

  lemma PreVoteRequestFair(p: set<LogEntry>, n: Node, from: NodeId, t: nat, c: NodeId, i: nat, lt: nat)
    ensures Fair(p, n, OnPreVoteRequest(n, from, t, c, i, lt))
  {
    hide LogView.LastIndex, LogView.LastTerm, Fair;
    AsideFair(p, n, OnPreVoteRequest(n, from, t, c, i, lt));
  }

  /** What the input brings in is vouched for. */
  predicate Backs(p: set<LogEntry>, n: Node, input: Input) {
    && (input.Receive? && input.message.AppendEntries? ==> Vouched(p, input.message.entries))
    && (input.Propose? && n.role == Leader ==> Entry(n, input.id, input.command) in p)
  }

  lemma HandleProper(p: set<LogEntry>, n: Node, input: Input)
    requires Backs(p, n, input)
    ensures Proper(p, n, Handle(n, input))
  {
    hide Proper, Fair, OnTick, OnMessage, OnPropose, OnReadIndex, OnSnapshotBuilt, Vouched;
    match input {
      case TickInput(tick) => TickProper(p, n, tick);
      case Receive(from, message) => MessageProper(p, n, from, message);
      case Propose(id, command) =>
        ProposeFair(p, n, id, command);
        FairIsProper(p, n, OnPropose(n, id, command));
      case ReadIndex(context) =>
        ReadIndexFair(p, n, context);
        FairIsProper(p, n, OnReadIndex(n, context));
      case SnapshotBuilt(snapshot) =>
        BuiltFair(p, n, snapshot);
        FairIsProper(p, n, OnSnapshotBuilt(n, snapshot));
    }
  }

  lemma StepProper(p: set<LogEntry>, n: Node, input: Input)
    requires Backs(p, n, input)
    ensures Proper(p, n, Step(n, input))
  {
    hide ApplyCommitted, Handle, Step, Confirmed, VouchedAction, LogView.LastIndex;
    var replay := ApplyCommitted(n);
    ApplyKeepsRole(n);
    ApplyFair(p, n);
    HandleProper(p, replay.node, input);
    StepSplit(n, input);
    ConfirmedConcat(replay.actions, Handle(replay.node, input).actions);
  }

  // --------------------------------------------------------------------------- runs

  /** The event has a leader take a proposal on. */
  predicate TakesAt(cfg: Configuration, events: seq<Event>, k: nat)
    requires ClusterRun(cfg, events)
  {
    && k < |events| && events[k].input.Propose? && events[k].node in At(cfg, events, k).nodes
    && At(cfg, events, k).nodes[events[k].node].role == Leader
  }

  /** The entry the leader makes of it. */
  function TakenEntry(cfg: Configuration, events: seq<Event>, k: nat): LogEntry
    requires ClusterRun(cfg, events) && TakesAt(cfg, events, k)
  {
    Entry(At(cfg, events, k).nodes[events[k].node], events[k].input.id, events[k].input.command)
  }

  function Taken(cfg: Configuration, events: seq<Event>, j: nat): set<LogEntry>
    requires ClusterRun(cfg, events)
  {
    set k | 0 <= k < j && TakesAt(cfg, events, k) :: TakenEntry(cfg, events, k)
  }

  ghost predicate AllVouched(p: set<LogEntry>, sys: System) {
    && (forall n {:trigger sys.nodes[n]} :: n in sys.nodes ==> Vouched(p, sys.nodes[n].log.entries))
    && (forall q {:trigger q in sys.net} :: q in sys.net && q.message.AppendEntries? ==> Vouched(p, q.message.entries))
  }

  lemma VouchedMore(p: set<LogEntry>, q: set<LogEntry>, sys: System)
    requires AllVouched(p, sys) && p <= q
    ensures AllVouched(q, sys)
  {
  }

  lemma {:induction false} DiskVouched(p: set<LogEntry>, s: StableState, actions: seq<Action>)
    requires Vouched(p, s.entries) && Sound(p, actions) && StableStore.ExecuteAll(s, actions).Ok?
    ensures Vouched(p, StableStore.ExecuteAll(s, actions).value.entries)
    decreases |actions|
  {
    hide Vouched, StableStore.Execute, VouchedAction;
    if actions != [] {
      assert actions[0] in actions && forall a :: a in actions[1..] ==> a in actions;
      ExecuteVouched(p, s, actions[0]);
      DiskVouched(p, StableStore.Execute(s, actions[0]).value, actions[1..]);
    }
  }

  lemma ExecuteVouched(p: set<LogEntry>, s: StableState, a: Action)
    requires Vouched(p, s.entries) && VouchedAction(p, a) && StableStore.Execute(s, a).Ok?
    ensures Vouched(p, StableStore.Execute(s, a).value.entries)
  {
    hide StableStore.ValidHardState, StableStore.ValidEntrySequence, StableStore.ValidSnapshot,
         StableStore.ValidIndexes, StableStore.ValidIntent, StableStore.LastIndex, StableStore.TermAt,
         StableStore.SuffixAfter;
    if a.Persist? && a.mutation.TruncateAndAppend? {
      var keep := a.mutation.from - StableStore.BaseIndex(s) - 1;
      PartVouched(p, s.entries, 0, keep);
      assert s.entries[0..keep] == s.entries[..keep];
    }
  }

  lemma PrefixSound(p: set<LogEntry>, actions: seq<Action>, k: nat)
    requires k <= |actions| && Sound(p, actions) && Confirmed(actions)
    ensures Sound(p, actions[..k]) && Confirmed(actions[..k])
  {
    hide VouchedAction, Confirms;
    var part := actions[..k];
    assert forall a :: a in part ==> a in actions;
    assert forall i :: 0 <= i < |part| ==> part[i] == actions[i];
  }

  lemma ExecutedSound(p: set<LogEntry>, sys: System, e: Event)
    requires Allowed(sys, e) && AllVouched(p, sys) && Backs(p, sys.nodes[e.node], e.input)
    ensures Sound(p, Executed(sys, e)) && Confirmed(Executed(sys, e))
    ensures Vouched(p, Step(sys.nodes[e.node], e.input).node.log.entries)
  {
    hide Step, VouchedAction, Confirmed, Vouched, Entry;
    var node := sys.nodes[e.node];
    StepProper(p, node, e.input);
    if e.crash.Some? {
      PrefixSound(p, Step(node, e.input).actions, e.crash.value);
    }
  }

  lemma RebootVouched(p: set<LogEntry>, sys: System, n: NodeId, actions: seq<Action>)
    requires n in sys.nodes && Vouched(p, sys.nodes[n].log.entries) && Sound(p, actions)
    requires Reboot(sys, n, actions).Ok?
    ensures Vouched(p, Reboot(sys, n, actions).value.log.entries)
  {
    hide EntriesRecoverable, PersistentSnapshot.Validate, LogView.LastIndex, StableStore.ExecuteAll, Sound, Vouched;
    DiskVouched(p, sys.nodes[n].Stable(), actions);
  }

  lemma NextVouched(p: set<LogEntry>, sys: System, e: Event)
    requires Allowed(sys, e) && AllVouched(p, sys) && Backs(p, sys.nodes[e.node], e.input)
    ensures AllVouched(p, Next(sys, e)) && Sound(p, Executed(sys, e)) && Confirmed(Executed(sys, e))
  {
    hide Step, Executed, Reboot, Accepts, Vouched, Entry, Confirmed;
    var next := Next(sys, e);
    ExecutedSound(p, sys, e);
    assert next.nodes == sys.nodes[e.node := next.nodes[e.node]];
    if e.crash.Some? && Reboot(sys, e.node, Executed(sys, e)).Ok? {
      RebootVouched(p, sys, e.node, Executed(sys, e));
    }
    forall n | n in next.nodes ensures Vouched(p, next.nodes[n].log.entries) {
      assert n == e.node || next.nodes[n] == sys.nodes[n];
    }
    forall q | q in next.net && q.message.AppendEntries? ensures Vouched(p, q.message.entries) {
      NextNet(sys, e, q);
    }
  }

  /** What the next event brings in is vouched for once its own proposal is counted. */
  lemma BackedByTaken(cfg: Configuration, events: seq<Event>, j: nat)
    requires ClusterRun(cfg, events) && j < |events| && Allowed(At(cfg, events, j), events[j])
    requires AllVouched(Taken(cfg, events, j), At(cfg, events, j))
    ensures AllVouched(Taken(cfg, events, j + 1), At(cfg, events, j))
    ensures Backs(Taken(cfg, events, j + 1), At(cfg, events, j).nodes[events[j].node], events[j].input)
  {
    hide ClusterRun, At, Vouched, Usable, Step;
    var sys, p, q := At(cfg, events, j), Taken(cfg, events, j), Taken(cfg, events, j + 1);
    VouchedMore(p, q, sys);
    if events[j].input.Propose? && sys.nodes[events[j].node].role == Leader {
      assert TakesAt(cfg, events, j);
      assert TakenEntry(cfg, events, j) in q;
    }
  }

  lemma {:induction false} AtVouched(cfg: Configuration, events: seq<Event>, j: nat)
    requires ClusterRun(cfg, events) && j <= |events|
    ensures AllVouched(Taken(cfg, events, j), At(cfg, events, j))
    decreases j
  {
    hide ClusterRun, At, AllVouched, Taken, Next, Allowed, Backs;
    if j == 0 {
      StartVouched(cfg, events);
    } else {
      AtVouched(cfg, events, j - 1);
      AtNext(cfg, events, j - 1);
      BackedByTaken(cfg, events, j - 1);
      NextVouched(Taken(cfg, events, j), At(cfg, events, j - 1), events[j - 1]);
    }
  }

  lemma StartVouched(cfg: Configuration, events: seq<Event>)
    requires ClusterRun(cfg, events)
    ensures AllVouched(Taken(cfg, events, 0), At(cfg, events, 0))
  {
    hide TakesAt;
    assert events[..0] == [];
  }

  // ----------------------------------------------------------------------- theorems

  /** The event at `j` executes the action on the node. */
  predicate ExecutedAt(cfg: Configuration, events: seq<Event>, j: nat, n: NodeId, a: Action)
    requires ClusterRun(cfg, events)
  {
    && j < |events| && events[j].node == n && Allowed(At(cfg, events, j), events[j])
    && a in Executed(At(cfg, events, j), events[j])
  }

  lemma ExecutionSound(cfg: Configuration, events: seq<Event>, j: nat)
    requires ClusterRun(cfg, events) && j < |events| && Allowed(At(cfg, events, j), events[j])
    ensures Sound(Taken(cfg, events, j + 1), Executed(At(cfg, events, j), events[j]))
    ensures Confirmed(Executed(At(cfg, events, j), events[j]))
  {
    hide ClusterRun, At, AllVouched, Taken, Backs, Executed, Allowed, Confirmed;
    AtVouched(cfg, events, j);
    BackedByTaken(cfg, events, j);
    NextVouched(Taken(cfg, events, j + 1), At(cfg, events, j), events[j]);
  }

  /** Nothing is made up: a command any node applies is, index and term included, the entry
      a leader made of a proposal by then. */
  lemma AppliedWasProposed(cfg: Configuration, events: seq<Event>, j: nat, n: NodeId, e: LogEntry) returns (k: nat)
    requires ClusterRun(cfg, events) && ExecutedAt(cfg, events, j, n, Apply(e)) && e.payload.Command?
    ensures k <= j && TakesAt(cfg, events, k) && TakenEntry(cfg, events, k) == e
  {
    hide ClusterRun, At, Executed, Allowed, TakenEntry, TakesAt;
    ExecutionSound(cfg, events, j);
    assert VouchedAction(Taken(cfg, events, j + 1), Apply(e));
    k :| 0 <= k < j + 1 && TakesAt(cfg, events, k) && TakenEntry(cfg, events, k) == e;
  }

  /** And so is any command in a node's log. */
  lemma LoggedWasProposed(cfg: Configuration, events: seq<Event>, j: nat, n: NodeId, e: LogEntry) returns (k: nat)
    requires ClusterRun(cfg, events) && j <= |events| && n in At(cfg, events, j).nodes
    requires e in At(cfg, events, j).nodes[n].log.entries && e.payload.Command?
    ensures k < j && TakesAt(cfg, events, k) && TakenEntry(cfg, events, k) == e
  {
    hide ClusterRun, At, TakenEntry, TakesAt;
    AtVouched(cfg, events, j);
    assert e in Taken(cfg, events, j);
    k :| 0 <= k < j && TakesAt(cfg, events, k) && TakenEntry(cfg, events, k) == e;
  }

  /** A confirmation tells the truth: the node has just applied, at the index named, the
      entry a leader made of the proposal named. */
  lemma ConfirmedWasApplied(cfg: Configuration, events: seq<Event>, j: nat, n: NodeId, id: nat, i: nat)
    returns (k: nat)
    requires ClusterRun(cfg, events) && ExecutedAt(cfg, events, j, n, ProposalCommitted(id, i))
    ensures k <= j && TakesAt(cfg, events, k) && events[k].input.id == id && TakenEntry(cfg, events, k).index == i
    ensures ExecutedAt(cfg, events, j, n, Apply(TakenEntry(cfg, events, k)))
  {
    hide ClusterRun, At, Executed, Allowed;
    ExecutionSound(cfg, events, j);
    var actions := Executed(At(cfg, events, j), events[j]);
    var x :| 0 <= x < |actions| && actions[x] == ProposalCommitted(id, i);
    assert Confirms(actions[x - 1], actions[x]) && actions[x - 1] in actions;
    k := AppliedWasProposed(cfg, events, j, n, actions[x - 1].entry);
  }

  /** A node that leads confirms every command it applies. */
  lemma LeaderConfirms(cfg: Configuration, events: seq<Event>, j: nat, n: NodeId, e: LogEntry)
    requires ClusterRun(cfg, events) && ExecutedAt(cfg, events, j, n, Apply(e)) && e.payload.Command?
    requires events[j].crash.None? && At(cfg, events, j).nodes[n].role == Leader
    requires Step(At(cfg, events, j).nodes[n], events[j].input).node.role == Leader
    ensures ExecutedAt(cfg, events, j, n, ProposalCommitted(e.payload.id, e.index))
  {
    hide ClusterRun, At, Step, Usable, AllVouched, Taken, Backs, Keeps, Confirmed;
    AtVouched(cfg, events, j);
    BackedByTaken(cfg, events, j);
    StepProper(Taken(cfg, events, j + 1), At(cfg, events, j).nodes[n], events[j].input);
  }

  /** A leader makes one entry of a proposal, at the end of its log and in its term, and
      persists it; anyone else refuses with the leader it knows of and logs nothing. */
  lemma ProposalTaken(cfg: Configuration, events: seq<Event>, j: nat, n: NodeId, id: nat, command: Bytes)
    requires ClusterRun(cfg, events) && j < |events| && events[j] == Event(n, Propose(id, command), None)
    ensures n in At(cfg, events, j).nodes && n in At(cfg, events, j + 1).nodes
    ensures var node, next := At(cfg, events, j).nodes[n], At(cfg, events, j + 1).nodes[n];
            if node.role == Leader then
              && next.log == node.log.Append([Entry(node, id, command)])
              && ExecutedAt(cfg, events, j, n, Persist(Append([Entry(node, id, command)])))
            else next.log == node.log && ExecutedAt(cfg, events, j, n, ProposalRejected(id, node.leaderId))
  {
    hide ClusterRun, At, Step, Next, Executed, Allowed, LogView.Append, Entry;
    AtNext(cfg, events, j);
    var sys := At(cfg, events, j);
    Uncrashed(sys, events[j]);
    ProposalStep(sys.nodes[n], id, command);
  }

  lemma ProposalStep(n: Node, id: nat, command: Bytes)
    ensures var o, e := Step(n, Propose(id, command)), Entry(n, id, command);
            if n.role == Leader then o.node.log == n.log.Append([e]) && Persist(Append([e])) in o.actions
            else o.node.log == n.log && ProposalRejected(id, n.leaderId) in o.actions
  {
    hide ApplyCommitted, Step, AdvanceLeaderCommit, Broadcast, LogView.LastIndex, LogView.Append;
    ApplyKeepsRole(n);
    StepSplit(n, Propose(id, command));
    var m := ApplyCommitted(n).node;
    var e := Entry(n, id, command);
    var o := Handle(m, Propose(id, command));
    if n.role == Leader {
      var grown := m.(log := m.log.Append([e]),
                      progress := if m.id in m.progress
                                  then m.progress[m.id := m.progress[m.id].(matchIndex := e.index,
                                                                            nextIndex := e.index + 1)]
                                  else m.progress);
      AdvanceKeepsRole(grown);
      assert Persist(Append([e])) in [Persist(Append([e]))];
    } else {
      assert o == Out(m, [ProposalRejected(id, n.leaderId)]);
      assert ProposalRejected(id, n.leaderId) in [ProposalRejected(id, n.leaderId)];
    }
  }
}
