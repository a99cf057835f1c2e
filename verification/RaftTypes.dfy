/** Consensus vocabulary: configurations and their quorums, log entries, stable
    state, messages, inputs and actions.  Terms and log indexes are unbounded. */
module RaftTypes {
  import opened Wrappers
  import opened Ordering

  type NodeId = nat
  type Digest = Bytes

  /** SHA-256 stands for an injective digest; the identity is one. */
  function Sha256(data: Bytes): Digest {
    data
  }

  // ---------------------------------------------------------------- quorums

  datatype Configuration = Configuration(
    participants: set<NodeId>,
    incoming: set<NodeId>,
    outgoing: Option<set<NodeId>>)
  {
    /** What every configuration, fixed or joint, satisfies. */
    predicate Valid() {
      && incoming != {}
      && (outgoing.Some? ==> outgoing.value != {})
      && participants == (if outgoing.Some? then outgoing.value + incoming else incoming)
    }

    predicate Contains(id: NodeId) {
      id in participants
    }

    predicate Quorum(votes: set<NodeId>) {
      && HasMajority(incoming, votes)
      && (outgoing.Some? ==> HasMajority(outgoing.value, votes))
    }

    /** The largest recorded match index that a quorum has reached, or zero. */
    function QuorumIndex(matched: map<NodeId, nat>): (r: nat) {
      Maximum({0} + QuorumCandidates(matched))
    }

    function QuorumCandidates(matched: map<NodeId, nat>): set<nat> {
      set v | v in matched && Quorum(Reached(matched, matched[v])) :: matched[v]
    }
  }

  predicate HasMajority(members: set<NodeId>, votes: set<NodeId>) {
    |members * votes| > |members| / 2
  }

  /** The voters whose recorded match index is at least `index`. */
  function Reached(matched: map<NodeId, nat>, index: nat): set<NodeId> {
    set v | v in matched && matched[v] >= index
  }

  /** The greatest member of a non-empty set of numbers. */
  function Maximum(s: set<nat>): (m: nat)
    requires s != {}
    ensures m in s && forall x :: x in s ==> x <= m
  {
    MaximumExists(s);
    var m :| m in s && forall x :: x in s ==> x <= m;
    m
  }

  lemma {:induction false} MaximumExists(s: set<nat>)
    requires s != {}
    ensures exists m :: m in s && forall x :: x in s ==> x <= m
    decreases |s|
  {
    var a :| a in s;
    var rest := s - {a};
    if rest != {} {
      MaximumExists(rest);
      var m :| m in rest && forall x :: x in rest ==> x <= m;
      var top := if m < a then a else m;
      assert top in s && forall x :: x in s ==> x <= top by {
        forall x | x in s ensures x <= top {
          assert x == a || x in rest;
        }
      }
    } else {
      assert s == {a};
    }
  }

  lemma MajoritiesMeet(members: set<NodeId>, a: set<NodeId>, b: set<NodeId>)
    requires HasMajority(members, a) && HasMajority(members, b)
    ensures exists m :: m in a && m in b && m in members
  {
    var x, y := members * a, members * b;
    if x * y == {} {
      assert |x + y| == |x| + |y|;
      Subset(x + y, members);
      assert false;
    }
    var m :| m in x * y;
  }

  lemma {:induction false} Subset(a: set<NodeId>, b: set<NodeId>)
    requires a <= b
    ensures |a| <= |b|
  {
    assert b == a + (b - a);
    assert |b| == |a| + |b - a|;
  }

  /** Any two quorums of one configuration, fixed or joint, share a participant. */
  lemma QuorumsIntersect(cfg: Configuration, a: set<NodeId>, b: set<NodeId>)
    requires cfg.Valid() && cfg.Quorum(a) && cfg.Quorum(b)
    ensures exists m :: m in a && m in b && m in cfg.participants
  {
    MajoritiesMeet(cfg.incoming, a, b);
  }

  lemma QuorumMonotone(cfg: Configuration, a: set<NodeId>, b: set<NodeId>)
    requires cfg.Quorum(a) && a * cfg.participants <= b && cfg.Valid()
    ensures cfg.Quorum(b)
  {
    Subset(cfg.incoming * a, cfg.incoming * b);
    if cfg.outgoing.Some? {
      Subset(cfg.outgoing.value * a, cfg.outgoing.value * b);
    }
  }

  /** `QuorumIndex` is reached by a quorum, and nothing above it is. */
  lemma QuorumIndexIsExact(cfg: Configuration, matched: map<NodeId, nat>)
    requires cfg.Valid() && matched.Keys == cfg.participants
    ensures var q := cfg.QuorumIndex(matched);
            && cfg.Quorum(Reached(matched, q))
            && forall i :: i > q ==> !cfg.Quorum(Reached(matched, i))
  {
    var q := cfg.QuorumIndex(matched);
    if q == 0 {
      assert Reached(matched, 0) == cfg.participants;
      assert cfg.incoming * cfg.participants == cfg.incoming;
      assert cfg.outgoing.Some? ==> cfg.outgoing.value * cfg.participants == cfg.outgoing.value;
      assert |cfg.incoming| > 0;
    }
    forall i: nat | i > q ensures !cfg.Quorum(Reached(matched, i)) {
      if cfg.Quorum(Reached(matched, i)) {
        LeastReached(cfg, matched, i);
      }
    }
  }

  /** A quorum at or above `i` makes its own least match index a candidate. */
  lemma LeastReached(cfg: Configuration, matched: map<NodeId, nat>, i: nat)
    requires cfg.Valid() && matched.Keys == cfg.participants
    requires cfg.Quorum(Reached(matched, i))
    ensures exists v :: v in matched && matched[v] >= i && matched[v] in cfg.QuorumCandidates(matched)
  {
    var r := Reached(matched, i);
    QuorumsIntersect(cfg, r, r);
    var low := LeastMember(matched, r);
    assert Reached(matched, matched[low]) == r;
  }

  lemma {:induction false} LeastMember(matched: map<NodeId, nat>, r: set<NodeId>) returns (low: NodeId)
    requires r != {} && r <= matched.Keys
    ensures low in r && forall v :: v in r ==> matched[low] <= matched[v]
    decreases |r|
  {
    var first :| first in r;
    var rest := r - {first};
    if rest == {} {
      assert r == {first};
      low := first;
    } else {
      var other := LeastMember(matched, rest);
      low := if matched[other] < matched[first] then other else first;
      forall v | v in r ensures matched[low] <= matched[v] {
        assert v == first || v in rest;
      }
    }
  }

  // -------------------------------------------------------------------- log

  datatype EntryPayload = Noop | Command(id: nat, bytes: Bytes)

  datatype LogEntry = LogEntry(index: nat, term: nat, payload: EntryPayload)

  datatype HardState = HardState(currentTerm: nat, votedFor: Option<NodeId>, commitIndex: nat)

  datatype SnapshotMetadata = SnapshotMetadata(
    lastIncludedIndex: nat,
    lastIncludedTerm: nat,
    byteLen: nat,
    sha256: Digest,
    configuration: Configuration)

  datatype PersistentSnapshot = PersistentSnapshot(metadata: SnapshotMetadata, data: Bytes) {
    predicate Validate() {
      metadata.byteLen == |data| && metadata.sha256 == Sha256(data)
    }
  }

  /** Exactly what a restart needs. */
  datatype StableState = StableState(
    hardState: HardState,
    snapshot: Option<PersistentSnapshot>,
    entries: seq<LogEntry>,
    appliedIndex: nat)

  datatype Role = Follower | PreCandidate | Candidate | Leader

  datatype Tick = Election | Heartbeat | CheckQuorum

  datatype Message =
    | PreVoteRequest(prospectiveTerm: nat, candidateId: NodeId, lastLogIndex: nat, lastLogTerm: nat)
    | PreVoteResponse(responderTerm: nat, prospectiveTerm: nat, granted: bool)
    | RequestVote(term: nat, candidateId: NodeId, lastLogIndex: nat, lastLogTerm: nat)
    | RequestVoteResponse(term: nat, granted: bool)
    | AppendEntries(term: nat, leaderId: NodeId, prevLogIndex: nat, prevLogTerm: nat,
                    entries: seq<LogEntry>, leaderCommit: nat, readContext: Option<Bytes>)
    | AppendEntriesResponse(term: nat, success: bool, matchIndex: nat, conflictIndex: nat,
                            conflictTerm: Option<nat>, readContext: Option<Bytes>)
    | InstallSnapshot(term: nat, leaderId: NodeId, metadata: SnapshotMetadata,
                      offset: nat, data: Bytes, done: bool)
    | InstallSnapshotResponse(term: nat, accepted: bool, nextOffset: nat, done: bool, matchIndex: nat)

  datatype Input =
    | TickInput(tick: Tick)
    | Receive(from: NodeId, message: Message)
    | Propose(id: nat, command: Bytes)
    | ReadIndex(context: Bytes)
    | SnapshotBuilt(snapshot: PersistentSnapshot)

  datatype StorageMutation =
    | SetHardState(hardState: HardState)
    | Append(entries: seq<LogEntry>)
    | TruncateAndAppend(from: nat, entries: seq<LogEntry>)
    | CompactSnapshot(snapshot: PersistentSnapshot, retainedEntries: seq<LogEntry>)
    | InstallReceived(snapshot: PersistentSnapshot, retainedEntries: seq<LogEntry>, hardState: HardState)

  datatype ReadError = NotLeader | LeaderNotReady | InvalidContext | LeadershipLost

  datatype FatalReason =
    | ReplacedCommitted(index: nat)
    | CommitBeyondEnd(commit: nat, last: nat)
    | CommittedUnavailable(index: nat)
    | MissingPreviousTerm(index: nat)
    | MissingSnapshot(peer: NodeId)

  datatype Action =
    | Persist(mutation: StorageMutation)
    | Send(to: NodeId, message: Message)
    | ResetElectionTimer
    | ResetHeartbeatTimer
    | RoleChanged(role: Role, term: nat)
    | Apply(entry: LogEntry)
    | ProposalCommitted(id: nat, index: nat)
    | ProposalRejected(id: nat, leaderHint: Option<NodeId>)
    | ReadReady(context: Bytes, index: nat)
    | ReadRejected(context: Bytes, error: ReadError)
    | SnapshotRejected
    | Fatal(reason: FatalReason)
}
