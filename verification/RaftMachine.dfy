/** The consensus node as the mutable object it is.  Each method changes fields
    step by step and is proved to do what the corresponding function of RaftNode
    says, so everything proved about those functions holds of the object. */
module RaftMachine {
  import opened Wrappers
  import opened Ordering
  import opened RaftTypes
  import Logs = RaftLog
  import opened RaftNode

  /** Searches the recorded match indexes downwards for the first that a quorum has reached. */
  method QuorumIndex(cfg: Configuration, matched: map<NodeId, nat>) returns (index: nat)
    ensures index == cfg.QuorumIndex(matched)
  {
    var indexes := SortedIds(matched.Values);
    var i := |indexes|;
    while i > 0
      invariant 0 <= i <= |indexes|
      invariant forall k :: i <= k < |indexes| ==> !cfg.Quorum(Reached(matched, indexes[k]))
    {
      i := i - 1;
      if cfg.Quorum(Reached(matched, indexes[i])) {
        HighestCandidate(cfg, matched, indexes, i);
        return indexes[i];
      }
    }
    NoCandidate(cfg, matched, indexes);
    return 0;
  }

  lemma HighestCandidate(cfg: Configuration, matched: map<NodeId, nat>, indexes: seq<nat>, i: nat)
    requires indexes == SortedIds(matched.Values) && i < |indexes|
    requires cfg.Quorum(Reached(matched, indexes[i]))
    requires forall k :: i < k < |indexes| ==> !cfg.Quorum(Reached(matched, indexes[k]))
    ensures cfg.QuorumIndex(matched) == indexes[i]
  {
    var all := {0} + cfg.QuorumCandidates(matched);
    assert indexes[i] in matched.Values;
    var v :| v in matched && matched[v] == indexes[i];
    assert indexes[i] in all;
    forall x | x in all ensures x <= indexes[i] {
      if x in cfg.QuorumCandidates(matched) {
        assert x in matched.Values && x in indexes;
        var k :| 0 <= k < |indexes| && indexes[k] == x;
        assert k <= i;
      }
    }
  }

  lemma NoCandidate(cfg: Configuration, matched: map<NodeId, nat>, indexes: seq<nat>)
    requires indexes == SortedIds(matched.Values)
    requires forall k :: 0 <= k < |indexes| ==> !cfg.Quorum(Reached(matched, indexes[k]))
    ensures cfg.QuorumIndex(matched) == 0
  {
    forall x | x in matched.Values ensures !cfg.Quorum(Reached(matched, x)) {
      assert x in indexes;
    }
    assert cfg.QuorumCandidates(matched) == {};
  }

  class Raft {
    const id: NodeId
    const configuration: Configuration
    var hardState: HardState
    const log: Logs.RaftLog
    var snapshot: Option<PersistentSnapshot>
    var appliedIndex: nat
    var role: Role
    var leaderId: Option<NodeId>
    var campaignTerm: Option<nat>
    var votes: set<NodeId>
    var progress: map<NodeId, Progress>
    var recentActive: set<NodeId>
    var pendingReads: map<Bytes, PendingRead>
    var incomingSnapshot: Option<IncomingSnapshot>

    function View(): Node
      reads this, log
    {
      Node(id, configuration, hardState, log.View(), snapshot, appliedIndex, role, leaderId, campaignTerm,
           votes, progress, recentActive, pendingReads, incomingSnapshot)
    }

    constructor (node: Node, log: Logs.RaftLog)
      requires log.View() == node.log
      ensures View() == node && this.log == log
    {
      id, configuration, hardState := node.id, node.configuration, node.hardState;
      this.log := log;
      snapshot, appliedIndex, role := node.snapshot, node.appliedIndex, node.role;
      leaderId, campaignTerm, votes := node.leaderId, node.campaignTerm, node.votes;
      progress, recentActive := node.progress, node.recentActive;
      pendingReads, incomingSnapshot := node.pendingReads, node.incomingSnapshot;
    }

    /** Restart from durable state, or the first thing wrong with it. */
    static method Recover(id: NodeId, configuration: Configuration, stable: StableState)
      returns (r: Result<Raft, RecoveryError>)
      ensures r.Ok? <==> RaftNode.Recover(id, configuration, stable).Ok?
      ensures r.Ok? ==> fresh(r.value) && fresh(r.value.log)
                        && Ok(r.value.View()) == RaftNode.Recover(id, configuration, stable)
      ensures r.Err? ==> RaftNode.Recover(id, configuration, stable) == Err(r.error)
    {
      if !configuration.Contains(id) { return Err(NotVoter); }
      if stable.snapshot.Some? {
        if !stable.snapshot.value.Validate() { return Err(InvalidSnapshot); }
        if stable.snapshot.value.metadata.configuration != configuration { return Err(InvalidSnapshot); }
      }
      var view := Logs.LogView.New(stable.snapshot, stable.entries);
      var expected: nat, previousTerm: nat, i: nat := view.baseIndex + 1, view.baseTerm, 0;
      assert stable.entries[0..] == stable.entries;
      while i < |stable.entries|
        invariant 0 <= i <= |stable.entries|
        invariant EntriesRecoverable(stable.entries, view.baseIndex + 1, view.baseTerm, stable.hardState.currentTerm)
                  <==> EntriesRecoverable(stable.entries[i..], expected, previousTerm, stable.hardState.currentTerm)
      {
        var entry := stable.entries[i];
        assert stable.entries[i..][1..] == stable.entries[i + 1..];
        if entry.index != expected || entry.term < previousTerm || entry.term > stable.hardState.currentTerm {
          return Err(InvalidLog);
        }
        expected, previousTerm, i := expected + 1, entry.term, i + 1;
      }
      var commit := stable.hardState.commitIndex;
      if commit < view.baseIndex || commit > view.LastIndex() { return Err(InvalidIndexes); }
      if stable.appliedIndex < view.baseIndex || stable.appliedIndex > commit { return Err(InvalidIndexes); }
      var log := new Logs.RaftLog(stable.snapshot, stable.entries);
      var raft := new Raft(Node(id, configuration, stable.hardState, log.View(), stable.snapshot, stable.appliedIndex,
                                Follower, None, None, {}, map[], {}, map[], None), log);
      return Ok(raft);
    }

    method Step(input: Input) returns (actions: seq<Action>)
      modifies this, log
      ensures Out(View(), actions) == RaftNode.Step(old(View()), input)
    {
      hide RaftNode.ApplyCommitted, RaftNode.OnTick, RaftNode.OnMessage, RaftNode.OnPropose, RaftNode.OnReadIndex,
           RaftNode.OnSnapshotBuilt;
      actions := ApplyCommitted([]);
      match input {
        case TickInput(tick) => actions := OnTick(tick, actions);
        case Receive(from, message) => actions := OnMessage(from, message, actions);
        case Propose(id, command) => actions := OnPropose(id, command, actions);
        case ReadIndex(context) => actions := OnReadIndex(context, actions);
        case SnapshotBuilt(snapshot) => actions := OnSnapshotBuilt(snapshot, actions);
      }
    }

    method OnTick(tick: Tick, emitted: seq<Action>) returns (actions: seq<Action>)
      modifies this, log
      ensures Out(View(), actions) == Then(Out(old(View()), emitted), RaftNode.OnTick(old(View()), tick))
    {
      actions := emitted;
      match tick {
        case Election =>
          if role != Leader {
            actions := StartPreVote(actions);
          }
        case Heartbeat =>
          if role == Leader {
            actions := BroadcastAppend(None, actions);
            actions := actions + [ResetHeartbeatTimer];
          }
        case CheckQuorum =>
          if role == Leader {
            if configuration.Quorum(recentActive) {
              recentActive := {id};
              actions := BroadcastAppend(None, actions);
            } else {
              actions := BecomeFollower(hardState.currentTerm, None, actions);
              actions := actions + [ResetElectionTimer];
            }
          }
      }
    }

    method OnMessage(from: NodeId, message: Message, emitted: seq<Action>) returns (actions: seq<Action>)
      modifies this, log
      ensures Out(View(), actions) == Then(Out(old(View()), emitted), RaftNode.OnMessage(old(View()), from, message))
    {
      if !configuration.Contains(from) || from == id {
        return emitted;
      }
      match message {
        case PreVoteRequest(t, c, i, lt) => actions := OnPreVoteRequest(from, t, c, i, lt, emitted);
        case PreVoteResponse(rt, pt, granted) => actions := OnPreVoteResponse(from, rt, pt, granted, emitted);
        case RequestVote(t, c, i, lt) => actions := OnVoteRequest(from, t, c, i, lt, emitted);
        case RequestVoteResponse(t, granted) => actions := OnVoteResponse(from, t, granted, emitted);
        case AppendEntries(_, _, _, _, _, _, _) => actions := OnAppendEntries(from, message, emitted);
        case AppendEntriesResponse(_, _, _, _, _, _) => actions := OnAppendResponse(from, message, emitted);
        case InstallSnapshot(_, _, _, _, _, _) => actions := OnInstallSnapshot(from, message, emitted);
        case InstallSnapshotResponse(_, _, _, _, _) => actions := OnSnapshotResponse(from, message, emitted);
      }
    }

    // ------------------------------------------------------------- elections

    method SendToPeers(message: Message, emitted: seq<Action>) returns (actions: seq<Action>)
      ensures actions == emitted + ToAll(View().Peers(), message)
    {
      var peers := View().Peers();
      actions := emitted;
      var i := 0;
      while i < |peers|
        invariant 0 <= i <= |peers|
        invariant actions == emitted + ToAll(peers[..i], message)
      {
        assert ToAll(peers[..i + 1], message) == ToAll(peers[..i], message) + [Send(peers[i], message)];
        actions := actions + [Send(peers[i], message)];
        i := i + 1;
      }
      assert peers[..i] == peers;
    }

    method StartPreVote(emitted: seq<Action>) returns (actions: seq<Action>)
      modifies this, log
      ensures Out(View(), actions) == Then(Out(old(View()), emitted), RaftNode.StartPreVote(old(View())))
    {
      hide RaftNode.StartElection, Configuration.Quorum, Logs.LogView.LastIndex, Logs.LogView.LastTerm, ToAll,
           Node.Peers;
      var prospective := hardState.currentTerm + 1;
      role, leaderId, campaignTerm, votes := PreCandidate, None, Some(prospective), {id};
      actions := emitted + [RoleChanged(role, hardState.currentTerm), ResetElectionTimer];
      if configuration.Quorum(votes) {
        actions := StartElection(prospective, actions);
      } else {
        actions := SendToPeers(PreVoteRequest(prospective, id, log.View().LastIndex(), log.View().LastTerm()), actions);
      }
    }

    method StartElection(term: nat, emitted: seq<Action>) returns (actions: seq<Action>)
      modifies this, log
      ensures Out(View(), actions) == Then(Out(old(View()), emitted), RaftNode.StartElection(old(View()), term))
    {
      hide RaftNode.BecomeLeader;
      hardState := hardState.(currentTerm := term, votedFor := Some(id));
      role, campaignTerm, votes := Candidate, None, {id};
      actions := emitted + [Persist(SetHardState(hardState)), RoleChanged(role, term), ResetElectionTimer];
      if configuration.Quorum(votes) {
        actions := BecomeLeader(actions);
      } else {
        actions := SendToPeers(RequestVote(term, id, log.View().LastIndex(), log.View().LastTerm()), actions);
      }
    }

    method OnPreVoteRequest(from: NodeId, prospective: nat, candidate: NodeId, lastIndex: nat, lastTerm: nat,
                            emitted: seq<Action>)
      returns (actions: seq<Action>)
      ensures Out(View(), actions)
              == Then(Out(View(), emitted),
                      RaftNode.OnPreVoteRequest(View(), from, prospective, candidate, lastIndex, lastTerm))
    {
      actions := emitted;
      if candidate == from {
        var granted := prospective > hardState.currentTerm && View().CandidateIsUpToDate(lastIndex, lastTerm);
        actions := actions + [Send(from, PreVoteResponse(hardState.currentTerm, prospective, granted))];
      }
    }

    method OnPreVoteResponse(from: NodeId, responderTerm: nat, prospective: nat, granted: bool, emitted: seq<Action>)
      returns (actions: seq<Action>)
      modifies this, log
      ensures Out(View(), actions)
              == Then(Out(old(View()), emitted),
                      RaftNode.OnPreVoteResponse(old(View()), from, responderTerm, prospective, granted))
    {
      hide RaftNode.StartElection, RaftNode.BecomeFollower;
      actions := emitted;
      if responderTerm > hardState.currentTerm {
        actions := BecomeFollower(responderTerm, None, actions);
        actions := actions + [ResetElectionTimer];
      } else if role == PreCandidate && campaignTerm == Some(prospective) && granted {
        votes := votes + {from};
        if configuration.Quorum(votes) {
          actions := StartElection(prospective, actions);
        }
      }
    }

    method OnVoteRequest(from: NodeId, term: nat, candidate: NodeId, lastIndex: nat, lastTerm: nat,
                         emitted: seq<Action>)
      returns (actions: seq<Action>)
      modifies this, log
      ensures Out(View(), actions)
              == Then(Out(old(View()), emitted),
                      RaftNode.OnVoteRequest(old(View()), from, term, candidate, lastIndex, lastTerm))
    {
      hide RaftNode.BecomeFollower;
      actions := emitted;
      if candidate != from {
        return;
      }
      if term > hardState.currentTerm {
        actions := BecomeFollower(term, None, actions);
      }
      var granted := term == hardState.currentTerm
          && (hardState.votedFor.None? || hardState.votedFor == Some(candidate))
                     && View().CandidateIsUpToDate(lastIndex, lastTerm);
      if granted {
        if hardState.votedFor != Some(candidate) {
          hardState := hardState.(votedFor := Some(candidate));
          actions := actions + [Persist(SetHardState(hardState))];
        }
        leaderId := None;
        actions := actions + [ResetElectionTimer];
      }
      actions := actions + [Send(from, RequestVoteResponse(hardState.currentTerm, granted))];
    }

    method OnVoteResponse(from: NodeId, term: nat, granted: bool, emitted: seq<Action>) returns (actions: seq<Action>)
      modifies this, log
      ensures Out(View(), actions)
              == Then(Out(old(View()), emitted), RaftNode.OnVoteResponse(old(View()), from, term, granted))
    {
      hide RaftNode.BecomeLeader, RaftNode.BecomeFollower;
      actions := emitted;
      if term > hardState.currentTerm {
        actions := BecomeFollower(term, None, actions);
        actions := actions + [ResetElectionTimer];
      } else if role == Candidate && term == hardState.currentTerm && granted {
        votes := votes + {from};
        if configuration.Quorum(votes) {
          actions := BecomeLeader(actions);
        }
      }
    }

    method BecomeLeader(emitted: seq<Action>) returns (actions: seq<Action>)
      modifies this, log
      ensures Out(View(), actions) == Then(Out(old(View()), emitted), RaftNode.BecomeLeader(old(View())))
    {
      hide RaftNode.AdvanceLeaderCommit, RaftNode.Broadcast, InitialProgress, Node.Peers, Logs.LogView.LastIndex,
           Logs.LogView.Append;
      ghost var start := View();
      var entry := Lead();
      assert View() == start.(role := Leader, leaderId := Some(id), votes := {}, pendingReads := map[],
                              log := start.log.Append([entry]), progress := InitialProgress(start, entry.index),
                              recentActive := configuration.participants);
      ghost var begun := [Persist(Append([entry])), RoleChanged(Leader, hardState.currentTerm), ResetHeartbeatTimer];
      actions := emitted + [Persist(Append([entry]))];
      actions := actions + [RoleChanged(role, hardState.currentTerm), ResetHeartbeatTimer];
      assert actions == emitted + begun;
      actions := AdvanceLeaderCommit(actions);
      actions := BroadcastAppend(None, actions);
    }

    /** Take over: the first entry of the term, and a fresh view of the peers. */
    method Lead() returns (entry: LogEntry)
      modifies this, log
      ensures entry == LogEntry(old(log.View()).LastIndex() + 1, old(hardState).currentTerm, Noop)
      ensures View() == old(View()).(role := Leader, leaderId := Some(id), votes := {}, pendingReads := map[],
                                     log := old(log.View()).Append([entry]),
                                     progress := InitialProgress(old(View()), entry.index),
                                     recentActive := configuration.participants)
    {
      hide Logs.LogView.LastIndex, Logs.LogView.Append, InitialProgress;
      role, leaderId, votes, pendingReads := Leader, Some(id), {}, map[];
      entry := LogEntry(log.View().LastIndex() + 1, hardState.currentTerm, Noop);
      log.Append([entry]);
      progress := FreshProgress(id, configuration.participants, entry.index, old(View()));
      recentActive := configuration.participants;
    }

    static method FreshProgress(id: NodeId, participants: set<NodeId>, index: nat, ghost n: Node)
      returns (progress: map<NodeId, Progress>)
      requires n.id == id && n.configuration.participants == participants
      ensures progress == InitialProgress(n, index)
    {
      progress := map[];
      var voters := SortedIds(participants);
      var i := 0;
      while i < |voters|
        invariant 0 <= i <= |voters|
        invariant forall v :: v in progress <==> v in voters[..i]
        invariant forall v :: v in progress ==> progress[v] == Progress(if v == id then index else 0, index + 1, None)
      {
        progress := progress[voters[i] := Progress(if voters[i] == id then index else 0, index + 1, None)];
        i := i + 1;
      }
      assert voters[..i] == voters;
    }

    static method RejectAll(contexts: seq<Bytes>, emitted: seq<Action>) returns (actions: seq<Action>)
      ensures actions == emitted + RejectReads(contexts)
    {
      actions := emitted;
      var i := 0;
      while i < |contexts|
        invariant 0 <= i <= |contexts|
        invariant actions == emitted + RejectReads(contexts[..i])
      {
        assert RejectReads(contexts[..i + 1]) == RejectReads(contexts[..i])
               + [ReadRejected(contexts[i], LeadershipLost)];
        actions := actions + [ReadRejected(contexts[i], LeadershipLost)];
        i := i + 1;
      }
      assert contexts[..i] == contexts;
    }

    /** Reject every pending read of a lost leadership. */
    method RejectPending(was: Role, emitted: seq<Action>) returns (actions: seq<Action>)
      modifies this`pendingReads
      ensures pendingReads == map[] && actions == emitted + RejectReads(Sorted(old(pendingReads).Keys))
    {
      hide RejectReads, Sorted;
      actions := emitted;
      if was == Leader || pendingReads != map[] {
        var contexts := Sorted(pendingReads.Keys);
        pendingReads := map[];
        actions := RejectAll(contexts, actions);
      } else {
        NothingToReject(pendingReads.Keys);
      }
    }

    method BecomeFollower(term: nat, leader: Option<NodeId>, emitted: seq<Action>) returns (actions: seq<Action>)
      modifies this, log
      ensures Out(View(), actions)
              == Then(Out(old(View()), emitted), RaftNode.BecomeFollower(old(View()), term, leader))
    {
      hide RejectReads, Sorted, RaftNode.BecomeFollower, Then;
      var was := role;
      actions := EnterTerm(term, emitted);
      actions := RejectPending(was, actions);
      role, leaderId, campaignTerm, votes, progress, recentActive := Follower, leader, None, {}, map[], {};
      var changed := if was != Follower then [RoleChanged(role, hardState.currentTerm)] else [];
      actions := actions + changed;
      FollowerIs(old(View()), term, leader, emitted, hardState);
    }

    /** What stepping down leaves and emits, after what was emitted before. */
    static lemma FollowerIs(n: Node, term: nat, leader: Option<NodeId>, emitted: seq<Action>, hs: HardState)
      requires hs == if term > n.Term() then n.hardState.(currentTerm := term, votedFor := None) else n.hardState
      ensures Then(Out(n, emitted), RaftNode.BecomeFollower(n, term, leader))
              == Out(n.(hardState := hs, pendingReads := map[], role := Follower, leaderId := leader,
                        campaignTerm := None, votes := {}, progress := map[], recentActive := {}),
                     emitted + (if term > n.Term() then [Persist(SetHardState(hs))] else [])
                     + RejectReads(Sorted(n.pendingReads.Keys))
                     + (if n.role != Follower then [RoleChanged(Follower, hs.currentTerm)] else []))
    {
      hide RejectReads, Sorted;
      Gather(emitted, if term > n.Term() then [Persist(SetHardState(hs))] else [],
             RejectReads(Sorted(n.pendingReads.Keys)),
             if n.role != Follower then [RoleChanged(Follower, hs.currentTerm)] else []);
    }

    method EnterTerm(term: nat, emitted: seq<Action>) returns (actions: seq<Action>)
      modifies this`hardState
      ensures hardState == if term > old(hardState.currentTerm)
              then old(hardState).(currentTerm := term, votedFor := None) else old(hardState)
      ensures actions == emitted + if term > old(hardState.currentTerm) then [Persist(SetHardState(hardState))] else []
    {
      actions := emitted;
      if term > hardState.currentTerm {
        hardState := hardState.(currentTerm := term, votedFor := None);
        actions := actions + [Persist(SetHardState(hardState))];
      }
    }

    static lemma Gather(emitted: seq<Action>, a: seq<Action>, b: seq<Action>, c: seq<Action>)
      ensures emitted + a + b + c == emitted + (a + b + c)
    {
    }

    static lemma NothingToReject(contexts: set<Bytes>)
      ensures contexts == {} ==> RejectReads(Sorted(contexts)) == []
    {
    }

    // ------------------------------------------------------------ replication

    /** The index and position from which the log must change, a rejection, or nothing. */
    method ScanBatch(entries: seq<LogEntry>) returns (r: Scan)
      ensures r == ScanFrom(log.View(), hardState.commitIndex, entries, 0)
    {
      var position := 0;
      while position < |entries|
        invariant 0 <= position <= |entries|
        invariant ScanFrom(log.View(), hardState.commitIndex, entries, 0)
                  == ScanFrom(log.View(), hardState.commitIndex, entries, position)
      {
        var entry := entries[position];
        match log.View().Term(entry.index) {
          case Some(t) =>
            if t != entry.term {
              return if entry.index <= hardState.commitIndex then Replaces(entry.index)
                     else ChangedAt(entry.index, position);
            }
          case None =>
            return if entry.index != log.View().LastIndex() + 1 then Gap else ChangedAt(entry.index, position);
        }
        position := position + 1;
      }
      return Present;
    }

    static method CheckSequence(previousIndex: nat, previousTerm: nat, leaderTerm: nat, entries: seq<LogEntry>)
      returns (ok: bool)
      ensures ok == ValidEntrySequence(previousIndex, previousTerm, leaderTerm, entries)
    {
      var term, i := previousTerm, 0;
      assert entries[0..] == entries;
      while i < |entries|
        invariant 0 <= i <= |entries|
        invariant ValidEntrySequence(previousIndex, previousTerm, leaderTerm, entries)
                  == ValidEntrySequence(previousIndex + i, term, leaderTerm, entries[i..])
      {
        assert entries[i..][1..] == entries[i + 1..];
        if entries[i].index != previousIndex + 1 + i || entries[i].term > leaderTerm || entries[i].term < term {
          return false;
        }
        term := entries[i].term;
        i := i + 1;
      }
      return true;
    }

    method OnAppendEntries(from: NodeId, m: Message, emitted: seq<Action>) returns (actions: seq<Action>)
      requires m.AppendEntries?
      modifies this, log
      ensures Out(View(), actions) == Then(Out(old(View()), emitted), RaftNode.OnAppendEntries(old(View()), from, m))
    {
      hide RaftNode.BecomeFollower, RaftNode.CheckPrevious;
      actions := emitted;
      if m.leaderId != from {
        return;
      }
      if m.term < hardState.currentTerm {
        actions := actions + RejectAppend(View(), from, m.readContext, log.View().LastIndex() + 1, None);
        return;
      }
      actions := BecomeFollower(m.term, Some(from), actions);
      actions := actions + [ResetElectionTimer];
      actions := MeetBatch(from, m, actions);
    }

    method MeetBatch(from: NodeId, m: Message, emitted: seq<Action>) returns (actions: seq<Action>)
      requires m.AppendEntries?
      modifies this, log
      ensures Out(View(), actions) == Then(Out(old(View()), emitted), CheckPrevious(old(View()), from, m))
    {
      hide RaftNode.FinishAppend, ScanFrom, ValidEntrySequence, Logs.LogView.FirstIndexOfTerm;
      actions := emitted;
      if m.prevLogIndex < log.baseIndex {
        actions := actions + RejectAppend(View(), from, m.readContext, log.baseIndex + 1, Some(log.baseTerm));
        return;
      }
      var local := log.View().Term(m.prevLogIndex);
      if local.None? {
        actions := actions + RejectAppend(View(), from, m.readContext, log.View().LastIndex() + 1, None);
        return;
      }
      if local.value != m.prevLogTerm {
        var first := log.FirstIndexOfTerm(m.prevLogIndex, local.value);
        actions := actions + RejectAppend(View(), from, m.readContext, first, local);
        return;
      }
      var valid := CheckSequence(m.prevLogIndex, m.prevLogTerm, m.term, m.entries);
      if !valid {
        actions := actions + RejectAppend(View(), from, m.readContext, m.prevLogIndex + 1, None);
        return;
      }
      var scan := ScanBatch(m.entries);
      match scan {
        case Replaces(index) =>
          actions := actions + [Fatal(ReplacedCommitted(index))];
          return;
        case Gap =>
          actions := actions + RejectAppend(View(), from, m.readContext, log.View().LastIndex() + 1, None);
          return;
        case Present =>
        case ChangedAt(index, position) =>
          var suffix := m.entries[if position <= |m.entries| then position else |m.entries|..];
          var replacing := index <= log.View().LastIndex();
          log.TruncateAndAppend(index, suffix);
          actions := actions + [Persist(if replacing then TruncateAndAppend(index, suffix) else Append(suffix))];
      }
      actions := FinishAppend(from, m, actions);
    }

    method FinishAppend(from: NodeId, m: Message, emitted: seq<Action>) returns (actions: seq<Action>)
      requires m.AppendEntries?
      modifies this, log
      ensures Out(View(), actions) == Then(Out(old(View()), emitted), RaftNode.FinishAppend(old(View()), from, m))
    {
      hide RaftNode.SetCommit;
      var last := log.View().LastIndex();
      actions := SetCommit(if m.leaderCommit <= last then m.leaderCommit else last, emitted);
      actions := actions + [Send(from,
                                 AppendEntriesResponse(hardState.currentTerm, true, m.prevLogIndex + |m.entries|, 0,
                                                       None, m.readContext))];
    }

    method OnAppendResponse(from: NodeId, m: Message, emitted: seq<Action>) returns (actions: seq<Action>)
      requires m.AppendEntriesResponse?
      modifies this, log
      ensures Out(View(), actions) == Then(Out(old(View()), emitted), RaftNode.OnAppendResponse(old(View()), from, m))
    {
      hide RaftNode.BecomeFollower, RaftNode.AcknowledgeRead, RaftNode.MatchReported, RaftNode.ConflictReported;
      actions := emitted;
      if m.term > hardState.currentTerm {
        actions := BecomeFollower(m.term, None, actions);
        actions := actions + [ResetElectionTimer];
        return;
      }
      if role != Leader || m.term != hardState.currentTerm {
        return;
      }
      recentActive := recentActive + {from};
      if m.readContext.Some? {
        actions := AcknowledgeRead(from, m.readContext.value, actions);
      }
      if m.success {
        actions := MatchReported(from, m, actions);
      } else {
        actions := ConflictReported(from, m, actions);
      }
    }

    method MatchReported(from: NodeId, m: Message, emitted: seq<Action>) returns (actions: seq<Action>)
      requires m.AppendEntriesResponse?
      modifies this, log
      ensures Out(View(), actions) == Then(Out(old(View()), emitted), RaftNode.MatchReported(old(View()), from, m))
    {
      hide RaftNode.AdvanceLeaderCommit, RaftNode.SendAppend;
      if from in progress {
        var p := progress[from];
        p := p.(matchIndex := if m.matchIndex <= p.matchIndex then p.matchIndex else m.matchIndex);
        p := p.(nextIndex := if m.matchIndex + 1 <= p.nextIndex then p.nextIndex else m.matchIndex + 1);
        p := p.(snapshotOffset := None);
        progress := progress[from := p];
      }
      actions := AdvanceLeaderCommit(emitted);
      if m.matchIndex < log.View().LastIndex() {
        actions := SendAppend(from, None, actions);
      }
    }

    method ConflictReported(from: NodeId, m: Message, emitted: seq<Action>) returns (actions: seq<Action>)
      requires m.AppendEntriesResponse?
      modifies this, log
      ensures Out(View(), actions) == Then(Out(old(View()), emitted), RaftNode.ConflictReported(old(View()), from, m))
    {
      hide RaftNode.SendAppend, Logs.LogView.LastIndexOfTerm;
      var known: Option<nat> := None;
      if m.conflictTerm.Some? {
        known := log.LastIndexOfTerm(m.conflictTerm.value);
      }
      var next := if known.Some? then known.value + 1 else m.conflictIndex;
      next := if next < 1 then 1 else next;
      if from in progress {
        var p := progress[from];
        var below := if p.nextIndex <= 2 then 1 else p.nextIndex - 1;
        progress := progress[from := p.(nextIndex := if next <= below then next else below, snapshotOffset := None)];
      }
      actions := SendAppend(from, None, emitted);
    }

    method OnPropose(command: nat, bytes: Bytes, emitted: seq<Action>) returns (actions: seq<Action>)
      modifies this, log
      ensures Out(View(), actions) == Then(Out(old(View()), emitted), RaftNode.OnPropose(old(View()), command, bytes))
    {
      hide RaftNode.AdvanceLeaderCommit, RaftNode.Broadcast;
      if role != Leader {
        return emitted + [ProposalRejected(command, leaderId)];
      }
      var entry := LogEntry(log.View().LastIndex() + 1, hardState.currentTerm, Command(command, bytes));
      log.Append([entry]);
      if id in progress {
        progress := progress[id := progress[id].(matchIndex := entry.index, nextIndex := entry.index + 1)];
      }
      actions := emitted + [Persist(Append([entry]))];
      actions := AdvanceLeaderCommit(actions);
      actions := BroadcastAppend(None, actions);
    }

    // ----------------------------------------------------------- linear reads

    method OnReadIndex(context: Bytes, emitted: seq<Action>) returns (actions: seq<Action>)
      modifies this, log
      ensures Out(View(), actions) == Then(Out(old(View()), emitted), RaftNode.OnReadIndex(old(View()), context))
    {
      hide RaftNode.CompleteRead, RaftNode.Broadcast;
      if role != Leader {
        return emitted + [ReadRejected(context, NotLeader)];
      }
      if context == [] || context in pendingReads {
        return emitted + [ReadRejected(context, InvalidContext)];
      }
      if log.View().Term(hardState.commitIndex) != Some(hardState.currentTerm) {
        return emitted + [ReadRejected(context, LeaderNotReady)];
      }
      pendingReads := pendingReads[context := PendingRead(hardState.commitIndex, {id})];
      if configuration.Quorum(pendingReads[context].acknowledgements) {
        actions := CompleteRead(context, emitted);
      } else {
        actions := BroadcastAppend(Some(context), emitted);
      }
    }

    method AcknowledgeRead(from: NodeId, context: Bytes, emitted: seq<Action>) returns (actions: seq<Action>)
      modifies this, log
      ensures Out(View(), actions)
              == Then(Out(old(View()), emitted), RaftNode.AcknowledgeRead(old(View()), from, context))
    {
      hide RaftNode.CompleteRead;
      if context !in pendingReads {
        return emitted;
      }
      var pending := pendingReads[context];
      pending := pending.(acknowledgements := pending.acknowledgements + {from});
      pendingReads := pendingReads[context := pending];
      actions := emitted;
      if configuration.Quorum(pending.acknowledgements) {
        actions := CompleteRead(context, actions);
      }
    }

    method CompleteRead(context: Bytes, emitted: seq<Action>) returns (actions: seq<Action>)
      modifies this
      ensures Out(View(), actions) == Then(Out(old(View()), emitted), RaftNode.CompleteRead(old(View()), context))
    {
      actions := emitted;
      if context in pendingReads {
        var pending := pendingReads[context];
        pendingReads := pendingReads - {context};
        actions := actions + [ReadReady(context, pending.index)];
      }
    }

    // -------------------------------------------------------------- snapshots

    method OnSnapshotBuilt(built: PersistentSnapshot, emitted: seq<Action>) returns (actions: seq<Action>)
      modifies this, log
      ensures Out(View(), actions) == Then(Out(old(View()), emitted), RaftNode.OnSnapshotBuilt(old(View()), built))
    {
      var d := built.metadata;
      if !(built.Validate() && d.configuration == configuration && log.baseIndex <= d.lastIncludedIndex <= appliedIndex
           && log.View().Term(d.lastIncludedIndex) == Some(d.lastIncludedTerm)) {
        return emitted + [SnapshotRejected];
      }
      log.Compact(d.lastIncludedIndex, d.lastIncludedTerm, true);
      snapshot := Some(built);
      return emitted + [Persist(CompactSnapshot(built, log.entries))];
    }

    method OnInstallSnapshot(from: NodeId, m: Message, emitted: seq<Action>) returns (actions: seq<Action>)
      requires m.InstallSnapshot?
      modifies this, log
      ensures Out(View(), actions) == Then(Out(old(View()), emitted), RaftNode.OnInstallSnapshot(old(View()), from, m))
    {
      hide RaftNode.BecomeFollower, RaftNode.ReceiveChunk;
      actions := emitted;
      if m.leaderId != from {
        return;
      }
      if m.term < hardState.currentTerm {
        actions := actions + SnapshotReply(View(), from, false, 0, false, 0);
        return;
      }
      actions := BecomeFollower(m.term, Some(from), actions);
      actions := actions + [ResetElectionTimer];
      actions := ReceiveChunk(from, m, actions);
    }

    method ReceiveChunk(from: NodeId, m: Message, emitted: seq<Action>) returns (actions: seq<Action>)
      requires m.InstallSnapshot?
      modifies this, log
      ensures Out(View(), actions) == Then(Out(old(View()), emitted), RaftNode.ReceiveChunk(old(View()), from, m))
    {
      hide RaftNode.InstallReceivedSnapshot;
      var d := m.metadata;
      if d.configuration != configuration || d.byteLen > MAX_SNAPSHOT_BYTES || d.lastIncludedIndex == 0 {
        incomingSnapshot := None;
        return emitted + SnapshotReply(View(), from, false, 0, false, 0);
      }
      if d.lastIncludedIndex <= appliedIndex {
        return emitted + SnapshotReply(View(), from, true, d.byteLen, true, d.lastIncludedIndex);
      }
      if m.offset == 0 && !(incomingSnapshot.Some? && incomingSnapshot.value.metadata == d) {
        incomingSnapshot := Some(IncomingSnapshot(d, []));
      }
      if incomingSnapshot.None? || incomingSnapshot.value.metadata != d {
        return emitted + SnapshotReply(View(), from, false, 0, false, 0);
      }
      var expected := |incomingSnapshot.value.data|;
      if m.offset < expected {
        var end := m.offset + |m.data|;
        var matches := end <= expected && incomingSnapshot.value.data[m.offset..end] == m.data;
        return emitted + SnapshotReply(View(), from, matches, expected, false, 0);
      }
      if m.offset != expected || expected + |m.data| > d.byteLen {
        return emitted + SnapshotReply(View(), from, false, expected, false, 0);
      }
      incomingSnapshot := Some(IncomingSnapshot(d, incomingSnapshot.value.data + m.data));
      var nextOffset := |incomingSnapshot.value.data|;
      if !m.done {
        return emitted + SnapshotReply(View(), from, true, nextOffset, false, 0);
      }
      if nextOffset != d.byteLen || Sha256(incomingSnapshot.value.data) != d.sha256 {
        incomingSnapshot := None;
        return emitted + SnapshotReply(View(), from, false, 0, false, 0);
      }
      actions := InstallReceived(from, emitted);
    }

    method InstallReceived(from: NodeId, emitted: seq<Action>) returns (actions: seq<Action>)
      requires incomingSnapshot.Some?
      modifies this, log
      ensures var s := PersistentSnapshot(old(incomingSnapshot).value.metadata, old(incomingSnapshot).value.data);
              forall n: Node :: n == old(View()).(incomingSnapshot := n.incomingSnapshot) ==>
                Out(View(), actions) == Then(Out(n, emitted), RaftNode.InstallReceivedSnapshot(n, from, s))
    {
      var received := PersistentSnapshot(incomingSnapshot.value.metadata, incomingSnapshot.value.data);
      incomingSnapshot := None;
      var d := received.metadata;
      var retain := log.View().Term(d.lastIncludedIndex) == Some(d.lastIncludedTerm);
      log.Compact(d.lastIncludedIndex, d.lastIncludedTerm, retain);
      snapshot := Some(received);
      if hardState.commitIndex <= d.lastIncludedIndex {
        hardState := hardState.(commitIndex := d.lastIncludedIndex);
      }
      appliedIndex := d.lastIncludedIndex;
      actions := emitted + [Persist(StorageMutation.InstallReceived(received, log.entries, hardState))];
      actions := actions + SnapshotReply(View(), from, true, d.byteLen, true, d.lastIncludedIndex);
    }

    method OnSnapshotResponse(from: NodeId, m: Message, emitted: seq<Action>) returns (actions: seq<Action>)
      requires m.InstallSnapshotResponse?
      modifies this, log
      ensures Out(View(), actions) == Then(Out(old(View()), emitted), RaftNode.OnSnapshotResponse(old(View()), from, m))
    {
      hide RaftNode.BecomeFollower, RaftNode.AdvanceLeaderCommit, RaftNode.SendAppend;
      actions := emitted;
      if m.term > hardState.currentTerm {
        actions := BecomeFollower(m.term, None, actions);
        actions := actions + [ResetElectionTimer];
        return;
      }
      if role != Leader || m.term != hardState.currentTerm {
        return;
      }
      recentActive := recentActive + {from};
      if from !in progress {
        return;
      }
      if m.done && m.accepted {
        progress := progress[from := Raised(progress[from], m.matchIndex)];
        actions := AdvanceLeaderCommit(actions);
      } else {
        progress := progress[from := progress[from].(snapshotOffset := Some(if m.accepted then m.nextOffset else 0))];
      }
      actions := SendAppend(from, None, actions);
    }

    // ------------------------------------------------------------------ commit

    method SetCommit(commit: nat, emitted: seq<Action>) returns (actions: seq<Action>)
      modifies this, log
      ensures Out(View(), actions) == Then(Out(old(View()), emitted), RaftNode.SetCommit(old(View()), commit))
    {
      hide RaftNode.ApplyCommitted;
      actions := emitted;
      if commit <= hardState.commitIndex {
        return;
      }
      if commit > log.View().LastIndex() {
        actions := actions + [Fatal(CommitBeyondEnd(commit, log.View().LastIndex()))];
        return;
      }
      hardState := hardState.(commitIndex := commit);
      actions := actions + [Persist(SetHardState(hardState))];
      actions := ApplyCommitted(actions);
    }

    method AdvanceLeaderCommit(emitted: seq<Action>) returns (actions: seq<Action>)
      modifies this, log
      ensures Out(View(), actions) == Then(Out(old(View()), emitted), RaftNode.AdvanceLeaderCommit(old(View())))
    {
      hide RaftNode.SetCommit;
      actions := emitted;
      if role != Leader {
        return;
      }
      var quorum := QuorumIndex(configuration, View().Matched());
      if quorum > hardState.commitIndex && log.View().Term(quorum) == Some(hardState.currentTerm) {
        actions := SetCommit(quorum, actions);
      }
    }

    method ApplyCommitted(emitted: seq<Action>) returns (actions: seq<Action>)
      modifies this
      ensures Out(View(), actions) == Then(Out(old(View()), emitted), RaftNode.ApplyCommitted(old(View())))
    {
      hide RaftNode.ApplyCommitted;
      actions := emitted;
      ghost var start := View();
      while appliedIndex < hardState.commitIndex
        invariant View() == start.(appliedIndex := appliedIndex)
        invariant Then(Out(View(), actions), RaftNode.ApplyCommitted(View()))
                  == Then(Out(start, emitted), RaftNode.ApplyCommitted(start))
        decreases hardState.commitIndex - appliedIndex
      {
        ApplyUnrolls(View(), actions);
        var next := appliedIndex + 1;
        var entry := log.View().Entry(next);
        if entry.None? {
          actions := actions + [Fatal(CommittedUnavailable(next))];
          return;
        }
        appliedIndex := next;
        actions := actions + [Apply(entry.value)];
        if role == Leader && entry.value.payload.Command? {
          actions := actions + [ProposalCommitted(entry.value.payload.id, entry.value.index)];
        }
      }
      ApplyUnrolls(View(), actions);
    }

    /** One turn of the loop is one unfolding of the function. */
    static lemma ApplyUnrolls(n: Node, actions: seq<Action>)
      ensures n.appliedIndex >= n.hardState.commitIndex ==>
                Then(Out(n, actions), RaftNode.ApplyCommitted(n)) == Out(n, actions)
      ensures n.appliedIndex < n.hardState.commitIndex ==>
                var entry := n.log.Entry(n.appliedIndex + 1);
                if entry.None? then
                  RaftNode.ApplyCommitted(n) == Out(n, [Fatal(CommittedUnavailable(n.appliedIndex + 1))])
                else
                  var m := n.(appliedIndex := n.appliedIndex + 1);
                  var told := if n.role == Leader && entry.value.payload.Command?
                              then actions + [Apply(entry.value)]
                                + [ProposalCommitted(entry.value.payload.id, entry.value.index)]
                              else actions + [Apply(entry.value)];
                  Then(Out(n, actions), RaftNode.ApplyCommitted(n)) == Then(Out(m, told), RaftNode.ApplyCommitted(m))
    {
    }

    // ----------------------------------------------------------------- sending

    method BroadcastAppend(context: Option<Bytes>, emitted: seq<Action>) returns (actions: seq<Action>)
      ensures actions == emitted + Broadcast(View(), View().Peers(), context)
    {
      hide RaftNode.SendAppend;
      var peers := View().Peers();
      actions := emitted;
      var i := 0;
      assert peers[0..] == peers;
      while i < |peers|
        invariant 0 <= i <= |peers|
        invariant actions + Broadcast(View(), peers[i..], context) == emitted + Broadcast(View(), peers, context)
      {
        assert peers[i..][1..] == peers[i + 1..];
        actions := SendAppend(peers[i], context, actions);
        i := i + 1;
      }
    }

    method SendAppend(peer: NodeId, context: Option<Bytes>, emitted: seq<Action>) returns (actions: seq<Action>)
      ensures actions == emitted + RaftNode.SendAppend(View(), peer, context)
    {
      hide SendSnapshotChunk, Logs.LogView.LastIndex, Logs.LogView.Term, Logs.LogView.EntriesFrom;
      if peer !in progress {
        return emitted;
      }
      var p := progress[peer];
      if p.nextIndex <= log.baseIndex {
        return emitted + SendSnapshotChunk(View(), peer, if p.snapshotOffset.Some? then p.snapshotOffset.value else 0);
      }
      var last := log.View().LastIndex();
      var next := if p.nextIndex <= last + 1 then p.nextIndex else last + 1;
      var term := log.View().Term(next - 1);
      if term.None? {
        return emitted + [Fatal(MissingPreviousTerm(next - 1))];
      }
      return emitted + [Send(peer, AppendEntries(hardState.currentTerm, id, next - 1, term.value,
                                                 log.View().EntriesFrom(next, MAX_APPEND_ENTRIES),
                                                   hardState.commitIndex, context))];
    }
  }
}
