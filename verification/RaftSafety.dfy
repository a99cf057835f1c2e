/** Why Raft is safe, stated over durable peer state and a history of what ever
    happened.  No messages appear here: a message is only a claim about the
    history, and the history never forgets (see RaftCluster). */
module RaftSafety {
  import opened Wrappers
  import opened RaftTypes

  type Log = seq<LogEntry>

  datatype PeerRole = Passive | Campaigning | Leading

  /** One node: its durable term, vote, uncompacted log and commit index. */
  datatype Peer = Peer(term: nat, vote: Option<NodeId>, log: Log, commit: nat, role: PeerRole)

  datatype Vote = Vote(voter: NodeId, term: nat, candidate: NodeId)
  /** The node's log matched the leader of `term` through `index`. */
  datatype Ack = Ack(node: NodeId, term: nat, index: nat)
  datatype Commit = Commit(term: nat, index: nat)

  /** Everything that ever happened; each component only grows. */
  datatype History = History(
    campaigns: map<(NodeId, nat), Log>,  // a candidate's log when it started a term
    votes: set<Vote>,
    ballots: set<Vote>,                  // votes cast before their term had a leader
    leaders: map<nat, NodeId>,
    logs: map<nat, Log>,                 // the log of each term's leader
    acks: set<Ack>,
    commits: set<Commit>,                // current-term commits by leaders
    chosen: Log,                         // the longest committed log
    reach: map<nat, nat>,                // how far each term's leader had committed
    covering: bool)                      // followers commit only what their leaders cover

  datatype State = State(cfg: Configuration, peers: map<NodeId, Peer>, h: History)

  // ------------------------------------------------------------ log algebra

  predicate Agree(a: Log, b: Log, n: nat) {
    n <= |a| && n <= |b| && forall k :: 0 <= k < n ==> a[k] == b[k]
  }

  function TermAt(log: Log, index: nat): nat
    requires index <= |log|
  {
    if index == 0 then 0 else log[index - 1].term
  }

  function LastTerm(log: Log): nat {
    TermAt(log, |log|)
  }

  /** The last position of `log` is at or after position (`term`, `index`). */
  predicate AtLeast(log: Log, term: nat, index: nat) {
    LastTerm(log) > term || (LastTerm(log) == term && |log| >= index)
  }

  predicate Ordered(log: Log, i: nat, j: nat) {
    i <= j < |log| ==> log[i].term <= log[j].term
  }

  ghost predicate WellFormed(log: Log) {
    && (forall i :: 0 <= i < |log| ==> log[i].index == i + 1 && log[i].term >= 1)
    && (forall i, j {:trigger Ordered(log, i, j)} :: Ordered(log, i, j))
  }

  predicate TermsBelow(log: Log, t: nat) {
    forall i :: 0 <= i < |log| ==> log[i].term < t
  }

  predicate MatchAt(log: Log, h: History, i: nat) {
    i < |log| ==> log[i].term in h.logs && Agree(log, h.logs[log[i].term], i + 1)
  }

  /** Every entry, with everything before it, was copied from its term's leader. */
  ghost predicate LogInv(log: Log, h: History) {
    WellFormed(log) && forall i {:trigger MatchAt(log, h, i)} :: 0 <= i < |log| ==> MatchAt(log, h, i)
  }

  // --------------------------------------------------------------- history

  function Voters(votes: set<Vote>, t: nat, c: NodeId): set<NodeId> {
    set v | v in votes && v.term == t && v.candidate == c :: v.voter
  }

  function Ackers(h: History, t: nat, i: nat): set<NodeId> {
    set a | a in h.acks && a.term == t && a.index == i :: a.node
  }

  predicate Loses(h: History, t: nat, i: nat, v: nat) {
    t in h.logs && v in h.logs && !Agree(h.logs[t], h.logs[v], i)
  }

  /** A leader elected strictly between terms `t` and `u` lacks the first `i` entries of term `t`. */
  ghost predicate Conflict(h: History, t: nat, i: nat, u: nat) {
    exists v {:trigger Loses(h, t, i, v)} :: t < v < u && Loses(h, t, i, v)
  }

  predicate CommittedBy(h: History, log: Log, i: nat, t: nat, r: Commit) {
    r in h.commits && r.term in h.logs && r.term <= t && i <= r.index && Agree(log, h.logs[r.term], i)
  }

  /** `log` is committed through `i` by a commit of term at most `t`. */
  ghost predicate Committed(h: History, log: Log, i: nat, t: nat) {
    i <= |log| && (i == 0 || exists r {:trigger CommittedBy(h, log, i, t, r)} :: CommittedBy(h, log, i, t, r))
  }

  /** The log of term `t`'s leader only grows, by entries of term `t`. */
  predicate Grows(h: History, g: History, t: nat) {
    t in h.logs ==>
      && t in g.logs && Agree(h.logs[t], g.logs[t], |h.logs[t]|)
      && forall k :: |h.logs[t]| <= k < |g.logs[t]| ==> g.logs[t][k].term == t
  }

  predicate SameCampaign(h: History, g: History, k: (NodeId, nat)) {
    k in h.campaigns ==> k in g.campaigns && g.campaigns[k] == h.campaigns[k]
  }

  predicate SameLeader(h: History, g: History, t: nat) {
    t in h.leaders ==> t in g.leaders && g.leaders[t] == h.leaders[t]
  }

  /** A leader's commit index only rises. */
  predicate Raises(h: History, g: History, t: nat) {
    t in h.reach ==> t in g.reach && h.reach[t] <= g.reach[t]
  }

  ghost predicate Extends(h: History, g: History) {
    && (forall k {:trigger SameCampaign(h, g, k)} :: SameCampaign(h, g, k))
    && (forall t {:trigger SameLeader(h, g, t)} :: SameLeader(h, g, t))
    && (forall t {:trigger Grows(h, g, t)} :: Grows(h, g, t))
    && (forall t {:trigger Raises(h, g, t)} :: Raises(h, g, t))
    && g.covering == h.covering
    && h.votes <= g.votes
    && h.ballots <= g.ballots
    && h.acks <= g.acks
    && h.commits <= g.commits
    && Agree(h.chosen, g.chosen, |h.chosen|)
  }

  // ------------------------------------------------------------ invariants

  ghost predicate PeerInv(s: State, n: NodeId) {
    n in s.peers ==>
      var p := s.peers[n];
      LogInv(p.log, s.h) && TermsBelow(p.log, p.term + 1) && p.commit <= |p.log|
  }

  ghost predicate CampaignInv(s: State, k: (NodeId, nat)) {
    k in s.h.campaigns ==>
      && k.0 in s.peers && 1 <= k.1 <= s.peers[k.0].term
      && LogInv(s.h.campaigns[k], s.h)
      && TermsBelow(s.h.campaigns[k], k.1)
  }

  predicate VoteInv(s: State, v: Vote) {
    v in s.h.votes ==>
      && v.voter in s.peers && v.term <= s.peers[v.voter].term
      && (v.term == s.peers[v.voter].term ==> s.peers[v.voter].vote == Some(v.candidate))
      && (v.candidate, v.term) in s.h.campaigns
      && (v.term !in s.h.logs ==> v in s.h.ballots)
  }

  predicate SameBallot(v: Vote, w: Vote) {
    v.voter == w.voter && v.term == w.term
  }

  ghost predicate LeaderInv(s: State, t: nat) {
    && (t in s.h.leaders <==> t in s.h.logs) && (t in s.h.reach <==> t in s.h.logs)
    && (t in s.h.leaders ==>
          var l, log := s.h.leaders[t], s.h.logs[t];
          && (l, t) in s.h.campaigns
          && l in s.peers && t <= s.peers[l].term
          && LogInv(log, s.h) && TermsBelow(log, t + 1)
          && s.cfg.Quorum(Voters(s.h.ballots, t, l))
          && var c := s.h.campaigns[(l, t)];
             && |c| < |log| && Agree(c, log, |c|) && log[|c|].term == t
             && t in s.h.reach && (s.h.reach[t] <= |c| || Commit(t, s.h.reach[t]) in s.h.commits))
  }

  predicate LeaderCommits(s: State, n: NodeId, r: Commit) {
    n in s.peers && r in s.h.commits && r.term == s.peers[n].term ==> r.index <= s.peers[n].commit
  }

  ghost predicate RoleInv(s: State, n: NodeId) {
    n in s.peers ==>
      var p := s.peers[n];
      && (p.role == Campaigning ==>
            && (n, p.term) in s.h.campaigns && s.h.campaigns[(n, p.term)] == p.log
            && p.vote == Some(n)
            && !(p.term in s.h.leaders && s.h.leaders[p.term] == n))
      && (p.role == Leading ==>
            && p.term in s.h.leaders && p.term in s.h.logs
            && s.h.leaders[p.term] == n && s.h.logs[p.term] == p.log
            && p.vote == Some(n)
            && p.term in s.h.reach && s.h.reach[p.term] == p.commit
            && forall r {:trigger LeaderCommits(s, n, r)} :: LeaderCommits(s, n, r))
  }

  /** What a node acknowledged is still in its log, unless a later leader lost it. */
  ghost predicate AckInv(s: State, a: Ack) {
    a in s.h.acks ==>
      && a.term in s.h.logs && a.index <= |s.h.logs[a.term]|
      && a.node in s.peers && a.term <= s.peers[a.node].term
      && (|| Agree(s.h.logs[a.term], s.peers[a.node].log, a.index)
          || Conflict(s.h, a.term, a.index, s.peers[a.node].term + 1))
  }

  /** A ballot cast after an acknowledgement went to a log at least as advanced as
      what was acknowledged, unless some leader in between had already lost it. */
  ghost predicate VoteAckInv(s: State, v: Vote, a: Ack) {
    && v in s.h.ballots && a in s.h.acks && a.node == v.voter && a.term < v.term
    && a.term in s.h.logs && 0 < a.index <= |s.h.logs[a.term]|
    && TermAt(s.h.logs[a.term], a.index) == a.term
    ==>
      && (v.candidate, v.term) in s.h.campaigns
      && (|| AtLeast(s.h.campaigns[(v.candidate, v.term)], a.term, a.index)
          || Conflict(s.h, a.term, a.index, v.term))
  }

  predicate CommitInv(s: State, r: Commit) {
    r in s.h.commits ==>
      && r.term in s.h.logs && 0 < r.index <= |s.h.logs[r.term]|
      && TermAt(s.h.logs[r.term], r.index) == r.term
      && s.cfg.Quorum(Ackers(s.h, r.term, r.index))
      && Agree(s.h.logs[r.term], s.h.chosen, r.index)
  }

  ghost predicate PeerCommitInv(s: State, n: NodeId) {
    s.h.covering && n in s.peers ==> Committed(s.h, s.peers[n].log, s.peers[n].commit, s.peers[n].term)
  }

  /** A commit index at an entry of the node's own term is one its leader had reached. */
  predicate ReachInv(s: State, n: NodeId) {
    n in s.peers ==>
      var p := s.peers[n];
      p.term > 0 && p.commit <= |p.log| && TermAt(p.log, p.commit) == p.term ==>
        p.term in s.h.reach && p.commit <= s.h.reach[p.term]
  }

  ghost predicate Inv(s: State) {
    && s.cfg.Valid() && s.peers.Keys == s.cfg.participants && s.h.ballots <= s.h.votes
    && (forall n {:trigger PeerInv(s, n)} :: PeerInv(s, n))
    && (forall k {:trigger CampaignInv(s, k)} :: CampaignInv(s, k))
    && (forall v {:trigger VoteInv(s, v)} :: VoteInv(s, v))
    && (forall v, w {:trigger SameBallot(v, w)} :: v in s.h.votes && w in s.h.votes && SameBallot(v, w) ==> v == w)
    && (forall t {:trigger LeaderInv(s, t)} :: LeaderInv(s, t))
    && (forall n {:trigger RoleInv(s, n)} :: RoleInv(s, n))
    && (forall a {:trigger AckInv(s, a)} :: AckInv(s, a))
    && (forall v, a {:trigger VoteAckInv(s, v, a)} :: VoteAckInv(s, v, a))
    && (forall r {:trigger CommitInv(s, r)} :: CommitInv(s, r))
    && (s.h.chosen == [] || exists r :: r in s.h.commits && r.index == |s.h.chosen|)
    && (forall n {:trigger PeerCommitInv(s, n)} :: PeerCommitInv(s, n))
    && (forall n {:trigger ReachInv(s, n)} :: ReachInv(s, n))
  }

  // ------------------------------------------------------ leader completeness

  /** Log matching: equal terms at an index mean equal logs through that index. */
  lemma LogMatching(a: Log, b: Log, h: History, i: nat)
    requires LogInv(a, h) && LogInv(b, h)
    requires i < |a| && i < |b| && a[i].term == b[i].term
    ensures Agree(a, b, i + 1)
  {
    assert MatchAt(a, h, i) && MatchAt(b, h, i);
  }

  /** Election safety: two quorums of votes in one term name one candidate. */
  lemma OneCandidate(s: State, t: nat, c: NodeId, d: NodeId)
    requires Inv(s)
    requires s.cfg.Quorum(Voters(s.h.votes, t, c)) && s.cfg.Quorum(Voters(s.h.votes, t, d))
    ensures c == d
  {
    QuorumsIntersect(s.cfg, Voters(s.h.votes, t, c), Voters(s.h.votes, t, d));
    var m :| m in Voters(s.h.votes, t, c) && m in Voters(s.h.votes, t, d);
    assert SameBallot(Vote(m, t, c), Vote(m, t, d));
  }

  /** What a quorum acknowledged to the leader of term `t`, ending in an entry of
      that term, is in the log of every later leader. */
  lemma {:induction false} QuorumCompleteness(s: State, t: nat, i: nat, u: nat)
    requires Inv(s)
    requires t in s.h.logs && 0 < i <= |s.h.logs[t]| && TermAt(s.h.logs[t], i) == t
    requires s.cfg.Quorum(Ackers(s.h, t, i))
    requires u in s.h.logs && t <= u
    ensures Agree(s.h.logs[t], s.h.logs[u], i)
    decreases u
  {
    if t < u {
      assert LeaderInv(s, u);
      var c := s.h.leaders[u];
      QuorumsIntersect(s.cfg, Voters(s.h.ballots, u, c), Ackers(s.h, t, i));
      var m :| m in Voters(s.h.ballots, u, c) && m in Ackers(s.h, t, i);
      var v, a := Vote(m, u, c), Ack(m, t, i);
      assert v in s.h.ballots && a in s.h.acks;
      assert VoteAckInv(s, v, a);
      if Conflict(s.h, t, i, u) {
        var w :| t < w < u && Loses(s.h, t, i, w);
        QuorumCompleteness(s, t, i, w);
        assert false;
      }
      var log := s.h.campaigns[(c, u)];
      assert CampaignInv(s, (c, u));
      assert log[|log| - 1].term < u;
      assert MatchAt(log, s.h, |log| - 1);
      var w := LastTerm(log);
      if w > t {
        QuorumCompleteness(s, t, i, w);
        LaterTermIsLater(s, t, i, w, |log|);
      }
      assert Agree(s.h.logs[t], log, i);
    }
  }

  /** In a later leader's log, entries of that leader's term follow everything older. */
  lemma LaterTermIsLater(s: State, t: nat, i: nat, w: nat, j: nat)
    requires LeaderInv(s, w) && t in s.h.logs && w in s.h.logs && t < w
    requires 0 < i <= |s.h.logs[t]| && TermAt(s.h.logs[t], i) == t
    requires Agree(s.h.logs[t], s.h.logs[w], i)
    requires 0 < j <= |s.h.logs[w]| && s.h.logs[w][j - 1].term == w
    ensures i < j
  {
    assert Ordered(s.h.logs[w], j - 1, i - 1);
  }

  /** Leader completeness: a commit of term `r.term` is in the log of every later leader. */
  lemma LeaderCompleteness(s: State, r: Commit, u: nat)
    requires Inv(s)
    requires r in s.h.commits && u in s.h.logs && r.term <= u
    ensures CommitInv(s, r) && Agree(s.h.logs[r.term], s.h.logs[u], r.index)
  {
    assert CommitInv(s, r);
    QuorumCompleteness(s, r.term, r.index, u);
  }

  /** Committed prefixes are prefixes of the chosen log. */
  lemma CommittedIsChosen(s: State, log: Log, i: nat, t: nat)
    requires Inv(s) && Committed(s.h, log, i, t)
    ensures Agree(log, s.h.chosen, i)
  {
    if i > 0 {
      var r :| CommittedBy(s.h, log, i, t, r);
      assert CommitInv(s, r);
    }
  }

  lemma PeerCommitChosen(s: State, n: NodeId)
    requires Inv(s) && s.h.covering && n in s.peers
    ensures Agree(s.peers[n].log, s.h.chosen, s.peers[n].commit)
  {
    assert PeerCommitInv(s, n);
    CommittedIsChosen(s, s.peers[n].log, s.peers[n].commit, s.peers[n].term);
  }

  /** A prefix committed by term `t` is in the log of every leader from term `t` on. */
  lemma CommittedInLeader(s: State, log: Log, i: nat, t: nat, u: nat)
    requires Inv(s) && Committed(s.h, log, i, t) && t <= u && u in s.h.logs
    ensures Agree(log, s.h.logs[u], i)
  {
    if i > 0 {
      var r :| CommittedBy(s.h, log, i, t, r);
      LeaderCompleteness(s, r, u);
    }
  }

  // -------------------------------------------------------------- monotonicity

  lemma LogInvExtends(log: Log, h: History, g: History)
    requires LogInv(log, h) && Extends(h, g)
    ensures LogInv(log, g)
  {
    forall i | 0 <= i < |log| ensures MatchAt(log, g, i) {
      assert MatchAt(log, h, i);
      assert Grows(h, g, log[i].term);
    }
  }

  lemma ConflictExtends(s: State, g: History, t: nat, i: nat, u: nat)
    requires Inv(s) && Extends(s.h, g)
    requires t in s.h.logs && i <= |s.h.logs[t]| && Conflict(s.h, t, i, u)
    ensures Conflict(g, t, i, u)
  {
    var v :| t < v < u && Loses(s.h, t, i, v);
    assert Grows(s.h, g, t) && Grows(s.h, g, v);
    assert LeaderInv(s, t) && LeaderInv(s, v);
    var a, b := s.h.logs[t], s.h.logs[v];
    if |b| < i {
      // The shorter log ends in an entry of term v, which no log of term t holds.
      var c := s.h.campaigns[(s.h.leaders[v], v)];
      assert b[|c|].term == v && a[|c|].term <= t;
      assert !Agree(g.logs[t], g.logs[v], i);
    }
    assert Loses(g, t, i, v);
  }

  lemma CommittedExtends(h: History, g: History, log: Log, i: nat, t: nat, u: nat)
    requires Committed(h, log, i, t) && Extends(h, g) && t <= u
    ensures Committed(g, log, i, u)
  {
    if i > 0 {
      var r :| CommittedBy(h, log, i, t, r);
      assert Grows(h, g, r.term);
      assert CommittedBy(g, log, i, u, r);
    }
  }

  lemma CommittedPrefix(h: History, log: Log, i: nat, j: nat, t: nat)
    requires Committed(h, log, i, t) && j <= i
    ensures Committed(h, log, j, t)
  {
    if j > 0 {
      var r :| CommittedBy(h, log, i, t, r);
      assert CommittedBy(h, log, j, t, r);
    }
  }

  lemma CommittedTransfer(h: History, a: Log, b: Log, i: nat, t: nat)
    requires Committed(h, a, i, t) && Agree(a, b, i)
    ensures Committed(h, b, i, t)
  {
    if i > 0 {
      var r :| CommittedBy(h, a, i, t, r);
      assert CommittedBy(h, b, i, t, r);
    }
  }

  // ------------------------------------------------------------- preservation

  /** What every transition of node `n` has in common. */
  ghost predicate Frame(s: State, q: State, n: NodeId) {
    && n in s.peers && q.cfg == s.cfg && q.peers.Keys == s.peers.Keys
    && q.peers == s.peers[n := q.peers[n]]
    && s.peers[n].term <= q.peers[n].term
    && Extends(s.h, q.h)
  }

  /** Obligations left to the transition of node `n` itself. */
  ghost predicate Local(s: State, q: State, n: NodeId) {
    && PeerInv(q, n) && RoleInv(q, n) && PeerCommitInv(q, n) && ReachInv(q, n)
    && (forall k {:trigger CampaignInv(q, k)} :: k in q.h.campaigns && k !in s.h.campaigns ==> CampaignInv(q, k))
    && (forall v {:trigger VoteInv(q, v)} :: v in q.h.votes && (v !in s.h.votes || v.voter == n) ==> VoteInv(q, v))
    && (forall v, w {:trigger SameBallot(v, w)} :: v in q.h.votes && w in q.h.votes && SameBallot(v, w) ==> v == w)
    && (forall t {:trigger LeaderInv(q, t)} ::
          t !in s.h.logs || Advances(s.h, q.h, t) ==> LeaderInv(q, t))
    && (forall t {:trigger Fixed(s, q, n, t)} :: Fixed(s, q, n, t))
    && (forall a {:trigger AckInv(q, a)} :: a in q.h.acks && (a !in s.h.acks || a.node == n) ==> AckInv(q, a))
    && q.h.ballots <= q.h.votes
    && (forall v, a {:trigger VoteAckInv(q, v, a)} :: v !in s.h.ballots || a !in s.h.acks ==> VoteAckInv(q, v, a))
    && ((q.h.commits == s.h.commits && q.h.chosen == s.h.chosen)
        || (&& (forall r {:trigger CommitInv(q, r)} :: CommitInv(q, r))
            && (q.h.chosen == [] || exists r :: r in q.h.commits && r.index == |q.h.chosen|)))
  }

  /** The leader of term `t` appended or committed something. */
  predicate Advances(h: History, g: History, t: nat) {
    || (t in h.logs && t in g.logs && g.logs[t] != h.logs[t])
    || (t in h.reach && t in g.reach && g.reach[t] != h.reach[t])
  }

  /** Only node `n` may become leader of, extend, or commit in term `t`. */
  ghost predicate Fixed(s: State, q: State, n: NodeId, t: nat) {
    && (t in q.h.leaders && t !in s.h.leaders ==> q.h.leaders[t] == n)
    && (t in s.h.logs && t in q.h.logs && q.h.logs[t] != s.h.logs[t] ==> t in s.h.leaders && s.h.leaders[t] == n)
    && (t in q.h.reach && !(t in s.h.reach && q.h.reach[t] == s.h.reach[t]) ==> t in q.h.leaders && q.h.leaders[t] == n)
    && (forall i {:trigger Commit(t, i)} :: Commit(t, i) in q.h.commits && Commit(t, i) !in s.h.commits ==>
          t in q.h.leaders && q.h.leaders[t] == n)
  }

  lemma PreservePeers(s: State, q: State, n: NodeId, m: NodeId)
    requires Inv(s) && Frame(s, q, n) && Local(s, q, n)
    ensures PeerInv(q, m) && PeerCommitInv(q, m) && RoleInv(q, m) && ReachInv(q, m)
  {
    if m != n && m in s.peers {
      assert PeerInv(s, m) && PeerCommitInv(s, m) && RoleInv(s, m) && ReachInv(s, m);
      var p := s.peers[m];
      LogInvExtends(p.log, s.h, q.h);
      if s.h.covering {
        CommittedExtends(s.h, q.h, p.log, p.commit, p.term, p.term);
      }
      assert Fixed(s, q, n, p.term);
      assert SameCampaign(s.h, q.h, (m, p.term)) && SameLeader(s.h, q.h, p.term) && Grows(s.h, q.h, p.term);
      assert Raises(s.h, q.h, p.term);
      if p.role == Leading {
        forall r ensures LeaderCommits(q, m, r) {
          assert LeaderCommits(s, m, r);
          assert r.term == p.term ==> r == Commit(p.term, r.index);
        }
      }
    }
  }

  lemma PreserveElections(s: State, q: State, n: NodeId)
    requires Inv(s) && Frame(s, q, n) && Local(s, q, n)
    ensures forall k {:trigger CampaignInv(q, k)} :: CampaignInv(q, k)
    ensures forall v {:trigger VoteInv(q, v)} :: VoteInv(q, v)
    ensures forall t {:trigger LeaderInv(q, t)} :: LeaderInv(q, t)
  {
    forall k ensures CampaignInv(q, k) {
      if k in s.h.campaigns {
        assert CampaignInv(s, k) && SameCampaign(s.h, q.h, k);
        LogInvExtends(s.h.campaigns[k], s.h, q.h);
      }
    }
    forall v ensures VoteInv(q, v) {
      if v in s.h.votes && v.voter != n {
        assert VoteInv(s, v) && SameCampaign(s.h, q.h, (v.candidate, v.term)) && Grows(s.h, q.h, v.term);
      }
    }
    forall t ensures LeaderInv(q, t) {
      if t in s.h.logs {
        assert LeaderInv(s, t) && SameLeader(s.h, q.h, t) && Grows(s.h, q.h, t) && Raises(s.h, q.h, t);
        if !Advances(s.h, q.h, t) {
          var l := s.h.leaders[t];
          assert SameCampaign(s.h, q.h, (l, t));
          LogInvExtends(s.h.logs[t], s.h, q.h);
          assert Voters(s.h.ballots, t, l) <= Voters(q.h.ballots, t, l);
          QuorumMonotone(s.cfg, Voters(s.h.ballots, t, l), Voters(q.h.ballots, t, l));
        }
      }
    }
  }

  lemma PreserveAcks(s: State, q: State, n: NodeId)
    requires Inv(s) && Frame(s, q, n) && Local(s, q, n)
    ensures forall a {:trigger AckInv(q, a)} :: AckInv(q, a)
    ensures forall v, a {:trigger VoteAckInv(q, v, a)} :: VoteAckInv(q, v, a)
  {
    forall a ensures AckInv(q, a) {
      if a in s.h.acks && a.node != n {
        assert AckInv(s, a) && Grows(s.h, q.h, a.term);
        if Conflict(s.h, a.term, a.index, s.peers[a.node].term + 1) {
          ConflictExtends(s, q.h, a.term, a.index, s.peers[a.node].term + 1);
        }
      }
    }
    forall v, a ensures VoteAckInv(q, v, a) {
      if v in s.h.ballots && a in s.h.acks {
        assert VoteAckInv(s, v, a) && AckInv(s, a) && VoteInv(s, v) && Grows(s.h, q.h, a.term);
        assert SameCampaign(s.h, q.h, (v.candidate, v.term));
        if a.index > 0 && Conflict(s.h, a.term, a.index, v.term) {
          ConflictExtends(s, q.h, a.term, a.index, v.term);
        }
      }
    }
  }

  lemma PreserveCommits(s: State, q: State, n: NodeId)
    requires Inv(s) && Frame(s, q, n) && Local(s, q, n)
    ensures forall r {:trigger CommitInv(q, r)} :: CommitInv(q, r)
    ensures q.h.chosen == [] || exists r :: r in q.h.commits && r.index == |q.h.chosen|
  {
    if q.h.commits == s.h.commits && q.h.chosen == s.h.chosen {
      forall r ensures CommitInv(q, r) {
        if r in s.h.commits {
          assert CommitInv(s, r) && Grows(s.h, q.h, r.term);
          assert Ackers(s.h, r.term, r.index) <= Ackers(q.h, r.term, r.index);
          QuorumMonotone(s.cfg, Ackers(s.h, r.term, r.index), Ackers(q.h, r.term, r.index));
        }
      }
    }
  }

  lemma Preserve(s: State, q: State, n: NodeId)
    requires Inv(s) && Frame(s, q, n) && Local(s, q, n)
    ensures Inv(q)
  {
    forall m ensures PeerInv(q, m) && PeerCommitInv(q, m) && RoleInv(q, m) && ReachInv(q, m) {
      PreservePeers(s, q, n, m);
    }
    PreserveElections(s, q, n);
    PreserveAcks(s, q, n);
    PreserveCommits(s, q, n);
  }

  // -------------------------------------------------------------- transitions

  function WithPeer(s: State, n: NodeId, p: Peer, h: History): State {
    State(s.cfg, s.peers[n := p], h)
  }

  function Through(n: NodeId, t: nat, i: nat): set<Ack> {
    set j | 0 <= j <= i :: Ack(n, t, j)
  }

  /** Stop leading or campaigning, moving to term `t` if it is newer. */
  function StepDown(s: State, n: NodeId, t: nat): State
    requires n in s.peers
  {
    var p := s.peers[n];
    WithPeer(s, n, if t > p.term then p.(term := t, vote := None, role := Passive) else p.(role := Passive), s.h)
  }

  lemma NodeAcks(s: State, q: State, n: NodeId)
    requires Inv(s) && Frame(s, q, n)
    requires Agree(s.peers[n].log, q.peers[n].log, |s.peers[n].log|)
    ensures forall a {:trigger AckInv(q, a)} :: a in s.h.acks && a.node == n ==> AckInv(q, a)
  {
    forall a | a in s.h.acks && a.node == n ensures AckInv(q, a) {
      assert AckInv(s, a) && Grows(s.h, q.h, a.term);
      var u := s.peers[n].term + 1;
      if Conflict(s.h, a.term, a.index, u) {
        ConflictExtends(s, q.h, a.term, a.index, u);
        var v :| a.term < v < u && Loses(q.h, a.term, a.index, v);
      }
    }
  }

  /** Votes already cast stay true while the node keeps its vote or moves to a later term. */
  lemma SameVotes(s: State, q: State, n: NodeId)
    requires Inv(s) && Frame(s, q, n) && q.h.votes == s.h.votes && q.h.ballots == s.h.ballots
    requires q.peers[n].term == s.peers[n].term ==> q.peers[n].vote == s.peers[n].vote
    ensures forall v {:trigger VoteInv(q, v)} :: v in q.h.votes && (v !in s.h.votes || v.voter == n) ==> VoteInv(q, v)
  {
    hide LeaderInv, AckInv, VoteAckInv, CommitInv, RoleInv, PeerInv, PeerCommitInv, CampaignInv;
    forall v | v in q.h.votes && v.voter == n ensures VoteInv(q, v) {
      assert VoteInv(s, v) && SameCampaign(s.h, q.h, (v.candidate, v.term)) && Grows(s.h, q.h, v.term);
    }
  }

  lemma SameLeaders(s: State, q: State, n: NodeId)
    requires Inv(s) && q.h.leaders == s.h.leaders && q.h.logs == s.h.logs && q.h.reach.Keys == s.h.reach.Keys
    ensures forall t {:trigger LeaderInv(q, t)} :: t !in s.h.logs ==> LeaderInv(q, t)
  {
    hide VoteInv, AckInv, VoteAckInv, CommitInv, RoleInv, PeerInv, PeerCommitInv, CampaignInv;
    forall t | t !in s.h.logs ensures LeaderInv(q, t) {
      assert LeaderInv(s, t);
    }
  }

  /** Acknowledgements of the current leader's log that the node now holds. */
  lemma NewAcks(s: State, q: State, n: NodeId)
    requires n in q.peers && q.peers[n].term in q.h.logs
    requires forall a :: a in q.h.acks && a !in s.h.acks ==>
               a.node == n && a.term == q.peers[n].term && Agree(q.h.logs[a.term], q.peers[n].log, a.index)
    ensures forall a {:trigger AckInv(q, a)} :: a in q.h.acks && a !in s.h.acks ==> AckInv(q, a)
  {
  }

  /** A role that does not change stays right while the log does not change either. */
  lemma SameRole(s: State, q: State, n: NodeId)
    requires Inv(s) && Frame(s, q, n) && q.h.leaders == s.h.leaders && q.h.logs == s.h.logs
             && q.h.commits == s.h.commits
    requires q.h.reach == s.h.reach
    requires q.peers[n].role in {s.peers[n].role, Passive} && q.peers[n].log == s.peers[n].log
             && q.peers[n].commit == s.peers[n].commit
    requires q.peers[n].role != Passive ==> q.peers[n].term == s.peers[n].term && q.peers[n].vote == s.peers[n].vote
    ensures PeerInv(q, n) && RoleInv(q, n) && PeerCommitInv(q, n) && ReachInv(q, n)
  {
    hide VoteInv, AckInv, VoteAckInv, CommitInv, LeaderInv, CampaignInv, Committed;
    var p, t := q.peers[n], s.peers[n].term;
    assert PeerInv(s, n) && PeerCommitInv(s, n) && RoleInv(s, n) && ReachInv(s, n) && SameCampaign(s.h, q.h, (n, t));
    LogInvExtends(p.log, s.h, q.h);
    if s.h.covering {
      CommittedExtends(s.h, q.h, p.log, p.commit, t, p.term);
    }
    if p.role == Leading {
      forall r ensures LeaderCommits(q, n, r) {
        assert LeaderCommits(s, n, r);
      }
    }
  }

  lemma BallotsAreVotes(s: State)
    requires Inv(s)
    ensures s.h.ballots <= s.h.votes
  {
  }

  lemma OwnVotes(s: State)
    requires Inv(s)
    ensures forall v, w {:trigger SameBallot(v, w)} :: v in s.h.votes && w in s.h.votes && SameBallot(v, w) ==> v == w
  {
  }

  lemma NoNewBallots(s: State, q: State)
    requires q.h.ballots == s.h.ballots && q.h.acks == s.h.acks
    ensures forall v, a {:trigger VoteAckInv(q, v, a)} :: v !in s.h.ballots || a !in s.h.acks ==> VoteAckInv(q, v, a)
  {
  }

  lemma StepDownKeepsInv(s: State, n: NodeId, t: nat)
    requires Inv(s) && n in s.peers
    ensures Inv(StepDown(s, n, t)) && Extends(s.h, StepDown(s, n, t).h)
  {
    hide Inv, PeerInv, RoleInv, PeerCommitInv, CampaignInv, VoteInv, LeaderInv, AckInv, VoteAckInv, CommitInv;
    var q := StepDown(s, n, t);
    assert s.h.ballots <= s.h.votes by { BallotsAreVotes(s); }
    OwnVotes(s);
    SameRole(s, q, n);
    NodeAcks(s, q, n);
    SameVotes(s, q, n);
    SameLeaders(s, q, n);
    NoNewBallots(s, q);
    Preserve(s, q, n);
  }

  /** Start an election in the next term. */
  function Campaign(s: State, n: NodeId): State
    requires n in s.peers
  {
    var p := s.peers[n];
    var t := p.term + 1;
    var v := Vote(n, t, n);
    WithPeer(s, n, p.(term := t, vote := Some(n), role := Campaigning),
             s.h.(campaigns := s.h.campaigns[(n, t) := p.log], votes := s.h.votes + {v}, ballots := s.h.ballots + {v}))
  }

  /** A log that kept an acknowledged prefix is at least as advanced as it. */
  lemma KeptIsAtLeast(s: State, n: NodeId, a: Ack)
    requires Inv(s) && n in s.peers && AckInv(s, a) && a in s.h.acks && a.node == n
    requires 0 < a.index && TermAt(s.h.logs[a.term], a.index) == a.term
    requires Agree(s.h.logs[a.term], s.peers[n].log, a.index)
    ensures AtLeast(s.peers[n].log, a.term, a.index)
  {
    assert PeerInv(s, n);
    var log := s.peers[n].log;
    assert Ordered(log, a.index - 1, |log| - 1);
  }

  lemma CampaignKeepsPeer(s: State, n: NodeId)
    requires Inv(s) && n in s.peers
    ensures var q, t := Campaign(s, n), s.peers[n].term + 1;
            && Frame(s, q, n) && PeerInv(q, n) && RoleInv(q, n) && PeerCommitInv(q, n) && ReachInv(q, n)
            && CampaignInv(q, (n, t))
            && (n, t) !in s.h.campaigns && forall v :: v in s.h.votes && v.voter == n ==> v.term < t
  {
    hide VoteAckInv, AckInv, CommitInv, Committed;
    var q := Campaign(s, n);
    var p, t := s.peers[n], s.peers[n].term + 1;
    assert CampaignInv(s, (n, t));
    forall u ensures Grows(s.h, q.h, u) {}
    assert PeerInv(s, n) && PeerCommitInv(s, n);
    LogInvExtends(p.log, s.h, q.h);
    if s.h.covering {
      CommittedExtends(s.h, q.h, p.log, p.commit, p.term, t);
    }
    assert LeaderInv(s, t);
    forall v | v in s.h.votes && v.voter == n ensures v.term < t {
      assert VoteInv(s, v);
    }
  }

  lemma CampaignKeepsVotes(s: State, n: NodeId)
    requires Inv(s) && n in s.peers && forall v :: v in s.h.votes && v.voter == n ==> v.term <= s.peers[n].term
    ensures var q := Campaign(s, n);
            && (forall v {:trigger VoteInv(q, v)} ::
                  v in q.h.votes && (v !in s.h.votes || v.voter == n) ==> VoteInv(q, v))
            && (forall v, w {:trigger SameBallot(v, w)} ::
                  v in q.h.votes && w in q.h.votes && SameBallot(v, w) ==> v == w)
  {
    hide VoteAckInv, AckInv, CommitInv, LeaderInv, RoleInv, PeerInv, PeerCommitInv, CampaignInv;
    var q := Campaign(s, n);
    forall v | v in q.h.votes && (v !in s.h.votes || v.voter == n) ensures VoteInv(q, v) {
      assert VoteInv(s, v);
    }
  }

  /** A new ballot by `n` for log `log`, at least as advanced as its own. */
  lemma NewBallot(s: State, q: State, n: NodeId, ballot: Vote)
    requires Inv(s) && n in s.peers && Extends(s.h, q.h) && q.h.acks == s.h.acks
             && q.h.ballots <= s.h.ballots + {ballot} && q.h.logs == s.h.logs
    requires ballot.voter == n && (ballot.candidate, ballot.term) in q.h.campaigns
    requires AtLeast(q.h.campaigns[(ballot.candidate, ballot.term)], LastTerm(s.peers[n].log), |s.peers[n].log|)
    requires ballot.term == s.peers[n].term + 1 || (ballot.term == s.peers[n].term && ballot.term !in s.h.logs)
    ensures forall v, a {:trigger VoteAckInv(q, v, a)} :: v !in s.h.ballots || a !in s.h.acks ==> VoteAckInv(q, v, a)
  {
    hide VoteInv, CommitInv, LeaderInv, RoleInv, PeerInv, PeerCommitInv, CampaignInv;
    forall v, a | v !in s.h.ballots || a !in s.h.acks ensures VoteAckInv(q, v, a) {
      if v == ballot && a in s.h.acks && a.node == n && a.term < v.term {
        BallotFollowsAck(s, q, n, ballot, a);
      }
    }
  }

  lemma BallotFollowsAck(s: State, q: State, n: NodeId, v: Vote, a: Ack)
    requires Inv(s) && n in s.peers && Extends(s.h, q.h) && q.h.logs == s.h.logs && a in s.h.acks && a.node == n
             && v.voter == n
    requires (v.candidate, v.term) in q.h.campaigns
    requires AtLeast(q.h.campaigns[(v.candidate, v.term)], LastTerm(s.peers[n].log), |s.peers[n].log|)
    requires v.term == s.peers[n].term + 1 || (v.term == s.peers[n].term && v.term !in s.h.logs)
    ensures VoteAckInv(q, v, a)
  {
    hide VoteInv, CommitInv, LeaderInv, RoleInv, PeerInv, PeerCommitInv, CampaignInv;
    assert AckInv(s, a);
    var p := s.peers[n];
    if 0 < a.index && TermAt(s.h.logs[a.term], a.index) == a.term {
      if Agree(s.h.logs[a.term], p.log, a.index) {
        KeptIsAtLeast(s, n, a);
      } else {
        var w :| a.term < w < p.term + 1 && Loses(s.h, a.term, a.index, w);
        assert Loses(q.h, a.term, a.index, w);
      }
    }
  }

  lemma CampaignKeepsInv(s: State, n: NodeId)
    requires Inv(s) && n in s.peers
    ensures Inv(Campaign(s, n)) && Extends(s.h, Campaign(s, n).h)
  {
    hide Inv, PeerInv, RoleInv, PeerCommitInv, CampaignInv, VoteInv, LeaderInv, AckInv, VoteAckInv, CommitInv;
    var q := Campaign(s, n);
    BallotsAreVotes(s);
    CampaignKeepsPeer(s, n);
    CampaignKeepsVotes(s, n);
    NodeAcks(s, q, n);
    NewBallot(s, q, n, Vote(n, s.peers[n].term + 1, n));
    SameLeaders(s, q, n);
    Preserve(s, q, n);
  }

  /** Vote for candidate `c`, whose log is at least as advanced as the voter's. */
  function Grant(s: State, n: NodeId, c: NodeId): State
    requires n in s.peers
  {
    var p := s.peers[n];
    var v := Vote(n, p.term, c);
    WithPeer(s, n, p.(vote := Some(c)),
             s.h.(votes := s.h.votes + {v}, ballots := if p.term in s.h.logs then s.h.ballots else s.h.ballots + {v}))
  }

  lemma GrantKeepsVotes(s: State, n: NodeId, c: NodeId)
    requires Inv(s) && n in s.peers && s.peers[n].vote in {None, Some(c)} && (c, s.peers[n].term) in s.h.campaigns
    ensures var q := Grant(s, n, c);
            && q.h.ballots <= q.h.votes
            && (forall v {:trigger VoteInv(q, v)} ::
                  v in q.h.votes && (v !in s.h.votes || v.voter == n) ==> VoteInv(q, v))
            && (forall v, w {:trigger SameBallot(v, w)} ::
                  v in q.h.votes && w in q.h.votes && SameBallot(v, w) ==> v == w)
  {
    hide VoteAckInv, AckInv, CommitInv, LeaderInv, RoleInv, PeerInv, PeerCommitInv, CampaignInv;
    var q := Grant(s, n, c);
    forall v | v in q.h.votes && (v !in s.h.votes || v.voter == n) ensures VoteInv(q, v) {
      assert VoteInv(s, v);
    }
    forall v, w | v in q.h.votes && w in q.h.votes && SameBallot(v, w) ensures v == w {
      assert VoteInv(s, v) && VoteInv(s, w);
    }
  }

  /** A vote again for the same candidate changes nothing; a first one leaves the role. */
  lemma GrantKeepsRole(s: State, n: NodeId, c: NodeId)
    requires Inv(s) && n in s.peers && s.peers[n].vote in {None, Some(c)}
    ensures s.peers[n].role != Passive ==> s.peers[n].vote == Some(c)
  {
    assert RoleInv(s, n);
  }

  lemma GrantKeepsInv(s: State, n: NodeId, c: NodeId)
    requires Inv(s) && n in s.peers
    requires s.peers[n].vote in {None, Some(c)}
    requires (c, s.peers[n].term) in s.h.campaigns
    requires var log := s.peers[n].log; AtLeast(s.h.campaigns[(c, s.peers[n].term)], LastTerm(log), |log|)
    ensures Inv(Grant(s, n, c)) && Extends(s.h, Grant(s, n, c).h)
  {
    hide Inv, PeerInv, RoleInv, PeerCommitInv, CampaignInv, VoteInv, LeaderInv, AckInv, VoteAckInv, CommitInv;
    var q := Grant(s, n, c);
    var t := s.peers[n].term;
    assert Frame(s, q, n);
    GrantKeepsRole(s, n, c);
    SameRole(s, q, n);
    GrantKeepsVotes(s, n, c);
    NodeAcks(s, q, n);
    if t in s.h.logs {
      NoNewBallots(s, q);
    } else {
      NewBallot(s, q, n, Vote(n, t, c));
    }
    SameLeaders(s, q, n);
    Preserve(s, q, n);
  }

  /** Win the election: append the new leader's first entry. */
  function Elect(s: State, n: NodeId, e: LogEntry): State
    requires n in s.peers
  {
    var p := s.peers[n];
    var log := p.log + [e];
    WithPeer(s, n, p.(log := log, role := Leading),
             s.h.(leaders := s.h.leaders[p.term := n], logs := s.h.logs[p.term := log],
                  acks := s.h.acks + Through(n, p.term, |log|), reach := s.h.reach[p.term := p.commit]))
  }

  lemma NotYetLed(s: State, n: NodeId)
    requires Inv(s) && n in s.peers && s.peers[n].role == Campaigning
    requires s.cfg.Quorum(Voters(s.h.votes, s.peers[n].term, n))
    ensures s.peers[n].term !in s.h.leaders && s.peers[n].term !in s.h.logs && s.peers[n].term !in s.h.reach
  {
    var t := s.peers[n].term;
    assert RoleInv(s, n) && LeaderInv(s, t);
    if t in s.h.leaders {
      var l := s.h.leaders[t];
      QuorumMonotone(s.cfg, Voters(s.h.ballots, t, l), Voters(s.h.votes, t, l));
      OneCandidate(s, t, n, l);
      assert false;
    }
  }

  /** Appending to a log that keeps `LogInv` an entry of the leader's own term. */
  lemma LeaderLogInv(log: Log, e: LogEntry, h: History, g: History)
    requires LogInv(log, h) && Extends(h, g)
    requires e.index == |log| + 1 && e.term >= 1 && TermsBelow(log, e.term + 1)
    requires e.term in g.logs && g.logs[e.term] == log + [e]
    ensures LogInv(log + [e], g)
  {
    var next := log + [e];
    forall i: nat, j: nat ensures Ordered(next, i, j) {
      assert Ordered(log, i, j);
    }
    forall i | 0 <= i < |next| ensures MatchAt(next, g, i) {
      if i < |log| {
        assert MatchAt(log, h, i);
        assert Grows(h, g, log[i].term);
      }
    }
  }

  /** Acknowledgements of the current term touch no ballot: none is newer. */
  lemma FreshAcks(s: State, q: State, n: NodeId)
    requires Inv(s) && n in s.peers && q.h.ballots == s.h.ballots
    requires forall a :: a in q.h.acks && a !in s.h.acks ==> a.node == n && a.term == s.peers[n].term
    ensures forall v, a {:trigger VoteAckInv(q, v, a)} :: v !in s.h.ballots || a !in s.h.acks ==> VoteAckInv(q, v, a)
  {
    forall v, a | v !in s.h.ballots || a !in s.h.acks ensures VoteAckInv(q, v, a) {
      assert VoteInv(s, v);
    }
  }

  lemma ElectKeepsPeer(s: State, n: NodeId, e: LogEntry)
    requires Inv(s) && n in s.peers && s.peers[n].role == Campaigning && s.peers[n].term !in s.h.leaders
             && s.peers[n].term !in s.h.logs
    requires s.peers[n].term !in s.h.reach
    requires e.term == s.peers[n].term && e.index == |s.peers[n].log| + 1
    ensures var q := Elect(s, n, e);
            && Frame(s, q, n) && PeerInv(q, n) && RoleInv(q, n) && PeerCommitInv(q, n) && ReachInv(q, n)
            && (n, s.peers[n].term) in s.h.campaigns && s.h.campaigns[(n, s.peers[n].term)] == s.peers[n].log
  {
    hide VoteInv, AckInv, VoteAckInv, LeaderInv, Committed;
    var q := Elect(s, n, e);
    var p, t := s.peers[n], s.peers[n].term;
    forall u ensures Grows(s.h, q.h, u) {}
    assert PeerInv(s, n) && PeerCommitInv(s, n) && RoleInv(s, n) && CampaignInv(s, (n, t));
    LeaderLogInv(p.log, e, s.h, q.h);
    if s.h.covering {
      CommittedExtends(s.h, q.h, p.log, p.commit, t, t);
      CommittedTransfer(q.h, p.log, p.log + [e], p.commit, t);
    }
    forall r ensures LeaderCommits(q, n, r) {
      assert CommitInv(s, r);
    }
  }

  lemma ElectKeepsLeaders(s: State, n: NodeId, e: LogEntry)
    requires Inv(s) && n in s.peers && s.peers[n].term !in s.h.logs
             && s.cfg.Quorum(Voters(s.h.votes, s.peers[n].term, n))
    requires var q := Elect(s, n, e); Frame(s, q, n) && PeerInv(q, n) && e.term == s.peers[n].term
    requires (n, s.peers[n].term) in s.h.campaigns && s.h.campaigns[(n, s.peers[n].term)] == s.peers[n].log
    ensures var q := Elect(s, n, e); forall u {:trigger LeaderInv(q, u)} :: u !in s.h.logs ==> LeaderInv(q, u)
  {
    hide AckInv, VoteAckInv, CommitInv, RoleInv, PeerCommitInv, CampaignInv;
    var q, t := Elect(s, n, e), s.peers[n].term;
    assert Voters(s.h.votes, t, n) <= Voters(s.h.ballots, t, n) by {
      forall m | m in Voters(s.h.votes, t, n) ensures m in Voters(s.h.ballots, t, n) {
        assert VoteInv(s, Vote(m, t, n));
      }
    }
    QuorumMonotone(s.cfg, Voters(s.h.votes, t, n), Voters(q.h.ballots, t, n));
    assert PeerInv(s, n);
    forall u | u !in s.h.logs ensures LeaderInv(q, u) {
      assert LeaderInv(s, u);
    }
  }

  lemma ElectKeepsInv(s: State, n: NodeId, e: LogEntry)
    requires Inv(s) && n in s.peers && s.peers[n].role == Campaigning
    requires s.cfg.Quorum(Voters(s.h.votes, s.peers[n].term, n))
    requires e.term == s.peers[n].term && e.index == |s.peers[n].log| + 1
    ensures Inv(Elect(s, n, e)) && Extends(s.h, Elect(s, n, e).h)
    ensures s.peers[n].term !in s.h.leaders
  {
    hide Inv, PeerInv, RoleInv, PeerCommitInv, CampaignInv, VoteInv, LeaderInv, AckInv, VoteAckInv, CommitInv;
    var q := Elect(s, n, e);
    NotYetLed(s, n);
    BallotsAreVotes(s);
    OwnVotes(s);
    ElectKeepsPeer(s, n, e);
    ElectKeepsLeaders(s, n, e);
    NodeAcks(s, q, n);
    NewAcks(s, q, n);
    SameVotes(s, q, n);
    FreshAcks(s, q, n);
    Preserve(s, q, n);
  }

  /** The leader appends an entry of its own term. */
  function Extend(s: State, n: NodeId, e: LogEntry): State
    requires n in s.peers
  {
    var p := s.peers[n];
    var log := p.log + [e];
    WithPeer(s, n, p.(log := log),
             s.h.(logs := s.h.logs[p.term := log], acks := s.h.acks + Through(n, p.term, |log|)))
  }

  lemma ExtendKeepsPeer(s: State, n: NodeId, e: LogEntry)
    requires Inv(s) && n in s.peers && s.peers[n].role == Leading
    requires e.term == s.peers[n].term && e.index == |s.peers[n].log| + 1
    ensures var q := Extend(s, n, e);
            Extends(s.h, q.h) && PeerInv(q, n) && RoleInv(q, n) && PeerCommitInv(q, n) && ReachInv(q, n)
              && LogInv(s.peers[n].log + [e], q.h)
  {
    hide VoteInv, AckInv, VoteAckInv, CommitInv, Committed, LogInv;
    var q := Extend(s, n, e);
    var p, t := s.peers[n], s.peers[n].term;
    assert PeerInv(s, n) && PeerCommitInv(s, n) && RoleInv(s, n) && LeaderInv(s, t) && CampaignInv(s, (n, t));
    assert Extends(s.h, q.h) by {
      forall u ensures Grows(s.h, q.h, u) {}
    }
    LeaderLogInv(p.log, e, s.h, q.h);
    if s.h.covering {
      CommittedExtends(s.h, q.h, p.log, p.commit, t, t);
      CommittedTransfer(q.h, p.log, p.log + [e], p.commit, t);
    }
    forall r ensures LeaderCommits(q, n, r) {
      assert LeaderCommits(s, n, r);
    }
  }

  lemma PeerCommits(s: State, n: NodeId)
    requires Inv(s)
    ensures PeerCommitInv(s, n)
  {
  }

  lemma LeaderRole(s: State, n: NodeId)
    requires Inv(s)
    ensures RoleInv(s, n) && PeerInv(s, n)
  {
  }

  lemma ExtendKeepsInv(s: State, n: NodeId, e: LogEntry)
    requires Inv(s) && n in s.peers && s.peers[n].role == Leading
    requires e.term == s.peers[n].term && e.index == |s.peers[n].log| + 1
    ensures Inv(Extend(s, n, e)) && Extends(s.h, Extend(s, n, e).h)
  {
    hide Inv, PeerInv, PeerCommitInv, CampaignInv, VoteInv, LeaderInv, AckInv, VoteAckInv, CommitInv, LeaderCommits;
    var q := Extend(s, n, e);
    assert RoleInv(s, n) by { LeaderRole(s, n); }
    BallotsAreVotes(s);
    OwnVotes(s);
    ExtendKeepsPeer(s, n, e);
    NodeAcks(s, q, n);
    NewAcks(s, q, n);
    SameVotes(s, q, n);
    FreshAcks(s, q, n);
    ExtendKeepsLeaders(s, n, e);
    forall u ensures Fixed(s, q, n, u) {}
    Preserve(s, q, n);
  }

  lemma ExtendKeepsLeaders(s: State, n: NodeId, e: LogEntry)
    requires Inv(s) && n in s.peers && s.peers[n].role == Leading
    requires e.term == s.peers[n].term && e.index == |s.peers[n].log| + 1
    requires LogInv(s.peers[n].log + [e], Extend(s, n, e).h)
    ensures var q := Extend(s, n, e);
            forall u {:trigger LeaderInv(q, u)} :: u !in s.h.logs || Advances(s.h, q.h, u) ==> LeaderInv(q, u)
  {
    var q := Extend(s, n, e);
    var t := s.peers[n].term;
    assert RoleInv(s, n) && LeaderInv(s, t);
    forall u | u !in s.h.logs || Advances(s.h, q.h, u) ensures LeaderInv(q, u) {
      assert LeaderInv(s, u);
    }
  }

  /** Acknowledge a prefix of the current leader's log that the node holds. */
  function Acknowledge(s: State, n: NodeId, i: nat): State
    requires n in s.peers
  {
    WithPeer(s, n, s.peers[n], s.h.(acks := s.h.acks + Through(n, s.peers[n].term, i)))
  }

  lemma AcknowledgeKeepsInv(s: State, n: NodeId, i: nat)
    requires Inv(s) && n in s.peers && s.peers[n].term in s.h.logs
    requires Agree(s.peers[n].log, s.h.logs[s.peers[n].term], i)
    ensures Inv(Acknowledge(s, n, i)) && Extends(s.h, Acknowledge(s, n, i).h)
  {
    var q := Acknowledge(s, n, i);
    assert q.peers == s.peers;
    SamePeerKeepsInv(s, q, n);
  }

  /** Adding acknowledgements that hold now, and nothing else. */
  lemma SamePeerKeepsInv(s: State, q: State, n: NodeId)
    requires Inv(s) && n in s.peers && q.peers == s.peers && q.cfg == s.cfg
    requires q.h == s.h.(acks := q.h.acks) && s.h.acks <= q.h.acks
    requires forall a :: a in q.h.acks && a !in s.h.acks ==>
               a.node == n && a.term == s.peers[n].term && a.term in s.h.logs
                 && Agree(s.peers[n].log, s.h.logs[a.term], a.index)
    ensures Inv(q) && Extends(s.h, q.h)
  {
    hide Inv, PeerInv, RoleInv, PeerCommitInv, CampaignInv, VoteInv, LeaderInv, AckInv, VoteAckInv, CommitInv;
    assert Frame(s, q, n);
    BallotsAreVotes(s);
    OwnVotes(s);
    SameRole(s, q, n);
    NodeAcks(s, q, n);
    if s.peers[n].term in s.h.logs {
      NewAcks(s, q, n);
    }
    SameVotes(s, q, n);
    FreshAcks(s, q, n);
    SameLeaders(s, q, n);
    Preserve(s, q, n);
  }

  /** Replace a log that lacks the first `i` entries of the current leader by them. */
  function Adopt(s: State, n: NodeId, i: nat): State
    requires n in s.peers && s.peers[n].term in s.h.logs && i <= |s.h.logs[s.peers[n].term]|
  {
    var p := s.peers[n];
    WithPeer(s, n, p.(log := s.h.logs[p.term][..i]), s.h.(acks := s.h.acks + Through(n, p.term, i)))
  }

  /** Committed entries are never lost by adopting the leader's log. */
  lemma CommitBelowMismatch(s: State, n: NodeId, i: nat)
    requires Inv(s) && s.h.covering && n in s.peers && s.peers[n].term in s.h.logs
    requires !Agree(s.peers[n].log, s.h.logs[s.peers[n].term], i)
    ensures s.peers[n].commit < i
    ensures Agree(s.peers[n].log, s.h.logs[s.peers[n].term], s.peers[n].commit)
  {
    var p := s.peers[n];
    assert PeerCommitInv(s, n);
    CommittedInLeader(s, p.log, p.commit, p.term, p.term);
  }

  lemma AdoptKeepsAcks(s: State, n: NodeId, i: nat, a: Ack)
    requires Inv(s) && n in s.peers && s.peers[n].term in s.h.logs && i <= |s.h.logs[s.peers[n].term]|
    requires !Agree(s.peers[n].log, s.h.logs[s.peers[n].term], i)
    requires a in s.h.acks && a.node == n
    ensures AckInv(Adopt(s, n, i), a)
  {
    var q := Adopt(s, n, i);
    var p, t := s.peers[n], s.peers[n].term;
    assert AckInv(s, a);
    if Agree(s.h.logs[a.term], p.log, a.index) {
      if !Agree(s.h.logs[a.term], s.h.logs[t], a.index) {
        assert Loses(q.h, a.term, a.index, t);
      }
    } else {
      var v :| a.term < v < t + 1 && Loses(s.h, a.term, a.index, v);
      assert Loses(q.h, a.term, a.index, v);
    }
  }

  /** Up to its commit index the node holds what the leader does, or the leader had
      committed as much. */
  predicate KeepsOwn(s: State, n: NodeId)
    requires n in s.peers && s.peers[n].term in s.h.logs
  {
    var p := s.peers[n];
    Agree(p.log, s.h.logs[p.term], p.commit) || (p.term in s.h.reach && p.commit <= s.h.reach[p.term])
  }

  lemma AdoptKeepsPeer(s: State, n: NodeId, i: nat)
    requires Inv(s) && n in s.peers && s.peers[n].role == Passive && s.peers[n].commit <= i
    requires s.peers[n].term in s.h.logs && i <= |s.h.logs[s.peers[n].term]|
    requires !Agree(s.peers[n].log, s.h.logs[s.peers[n].term], i)
    requires KeepsOwn(s, n)
    ensures var q := Adopt(s, n, i);
            Frame(s, q, n) && PeerInv(q, n) && RoleInv(q, n) && PeerCommitInv(q, n) && ReachInv(q, n)
  {
    hide VoteInv, AckInv, VoteAckInv, CommitInv, CampaignInv, Committed;
    var q := Adopt(s, n, i);
    var p, t := s.peers[n], s.peers[n].term;
    var log := q.peers[n].log;
    assert PeerInv(s, n) && PeerCommitInv(s, n) && LeaderInv(s, t) && ReachInv(s, n);
    forall i: nat, j: nat ensures Ordered(log, i, j) {
      assert Ordered(s.h.logs[t], i, j);
    }
    forall k | 0 <= k < |log| ensures MatchAt(log, q.h, k) {
      assert MatchAt(s.h.logs[t], s.h, k);
    }
    if s.h.covering {
      CommitBelowMismatch(s, n, i);
      CommittedExtends(s.h, q.h, p.log, p.commit, t, t);
      CommittedTransfer(q.h, p.log, log, p.commit, t);
    }
  }

  lemma AdoptKeepsInv(s: State, n: NodeId, i: nat)
    requires Inv(s) && n in s.peers && s.peers[n].role == Passive && s.peers[n].commit <= i
    requires s.peers[n].term in s.h.logs && i <= |s.h.logs[s.peers[n].term]|
    requires !Agree(s.peers[n].log, s.h.logs[s.peers[n].term], i) && KeepsOwn(s, n)
    ensures Inv(Adopt(s, n, i)) && Extends(s.h, Adopt(s, n, i).h)
  {
    hide Inv, PeerInv, RoleInv, PeerCommitInv, CampaignInv, VoteInv, LeaderInv, AckInv, VoteAckInv, CommitInv;
    var q := Adopt(s, n, i);
    BallotsAreVotes(s);
    OwnVotes(s);
    AdoptKeepsPeer(s, n, i);
    NewAcks(s, q, n);
    forall a | a in q.h.acks && (a !in s.h.acks || a.node == n) ensures AckInv(q, a) {
      if a in s.h.acks {
        AdoptKeepsAcks(s, n, i, a);
      }
    }
    SameVotes(s, q, n);
    FreshAcks(s, q, n);
    SameLeaders(s, q, n);
    Preserve(s, q, n);
  }

  /** A follower takes its log through `i` for committed; in a covering history it is. */
  function Learn(s: State, n: NodeId, i: nat): State
    requires n in s.peers
  {
    WithPeer(s, n, s.peers[n].(commit := i), s.h)
  }

  lemma LeaderPeer(s: State, n: NodeId)
    requires Inv(s)
    ensures PeerInv(s, n)
  {
  }

  lemma LearnKeepsInv(s: State, n: NodeId, i: nat)
    requires Inv(s) && n in s.peers && s.peers[n].role == Passive && i <= |s.peers[n].log|
    requires s.peers[n].term in s.h.reach && i <= s.h.reach[s.peers[n].term]
    requires s.h.covering ==>
               && s.peers[n].term in s.h.logs && Committed(s.h, s.h.logs[s.peers[n].term], i, s.peers[n].term)
               && Agree(s.peers[n].log, s.h.logs[s.peers[n].term], i)
    ensures Inv(Learn(s, n, i)) && Extends(s.h, Learn(s, n, i).h)
  {
    hide Inv, CampaignInv, VoteInv, LeaderInv, AckInv, VoteAckInv, CommitInv;
    var q := Learn(s, n, i);
    var p := s.peers[n];
    assert PeerInv(s, n) by { LeaderPeer(s, n); }
    BallotsAreVotes(s);
    OwnVotes(s);
    if s.h.covering {
      CommittedTransfer(s.h, s.h.logs[p.term], p.log, i, p.term);
    }
    NodeAcks(s, q, n);
    NoNewBallots(s, q);
    SameVotes(s, q, n);
    SameLeaders(s, q, n);
    Preserve(s, q, n);
  }

  /** The leader commits an entry of its own term that a quorum acknowledged. */
  function Decide(s: State, n: NodeId, i: nat): State
    requires n in s.peers && i <= |s.peers[n].log|
  {
    var p := s.peers[n];
    WithPeer(s, n, p.(commit := i),
             s.h.(commits := s.h.commits + {Commit(p.term, i)},
                  chosen := if i > |s.h.chosen| then p.log[..i] else s.h.chosen, reach := s.h.reach[p.term := i]))
  }

  ghost predicate Decidable(s: State, n: NodeId, i: nat) {
    && n in s.peers && s.peers[n].role == Leading
    && s.peers[n].commit < i <= |s.peers[n].log| && TermAt(s.peers[n].log, i) == s.peers[n].term
    && s.cfg.Quorum(Ackers(s.h, s.peers[n].term, i))
  }

  /** Two commits never disagree: the shorter is a prefix of the longer. */
  lemma DecideAgrees(s: State, n: NodeId, i: nat, r: Commit)
    requires Inv(s) && Decidable(s, n, i) && r in s.h.commits
    ensures CommitInv(s, r) && Agree(s.peers[n].log, s.h.logs[r.term], if i < r.index then i else r.index)
  {
    var p := s.peers[n];
    assert RoleInv(s, n) && CommitInv(s, r);
    if r.term <= p.term {
      LeaderCompleteness(s, r, p.term);
    } else {
      QuorumCompleteness(s, p.term, i, r.term);
    }
  }

  /** What is chosen only grows, and what is decided is in it. */
  lemma DecideChooses(s: State, n: NodeId, i: nat)
    requires Inv(s) && Decidable(s, n, i)
    ensures var q := Decide(s, n, i);
            Agree(s.h.chosen, q.h.chosen, |s.h.chosen|) && Agree(s.peers[n].log, q.h.chosen, i)
  {
    hide VoteInv, AckInv, VoteAckInv, CampaignInv, LeaderInv, RoleInv, PeerInv, PeerCommitInv, ReachInv;
    if s.h.chosen != [] {
      var r :| r in s.h.commits && r.index == |s.h.chosen|;
      DecideAgrees(s, n, i, r);
    }
  }

  lemma DecideKeepsPeer(s: State, n: NodeId, i: nat)
    requires Inv(s) && Decidable(s, n, i)
    ensures var q := Decide(s, n, i);
            && Frame(s, q, n) && PeerInv(q, n) && RoleInv(q, n) && PeerCommitInv(q, n) && ReachInv(q, n)
            && Agree(s.peers[n].log, q.h.chosen, i)
  {
    hide VoteInv, AckInv, VoteAckInv, CampaignInv, CommitInv, Agree;
    var q := Decide(s, n, i);
    var p := s.peers[n];
    assert PeerInv(s, n) && RoleInv(s, n) && LeaderInv(s, p.term);
    DecideChooses(s, n, i);
    forall t ensures Grows(s.h, q.h, t) {
      SameAgrees(s.h, t);
    }
    LogInvExtends(p.log, s.h, q.h);
    OwnLogCommitted(q.h, p.log, i, p.term);
    forall r ensures LeaderCommits(q, n, r) {
      assert LeaderCommits(s, n, r);
    }
  }

  lemma SameAgrees(h: History, t: nat)
    ensures t in h.logs ==> Agree(h.logs[t], h.logs[t], |h.logs[t]|)
  {
  }

  lemma OwnLogCommitted(h: History, log: Log, i: nat, t: nat)
    requires t in h.logs && h.logs[t] == log && i <= |log| && Commit(t, i) in h.commits
    ensures Committed(h, log, i, t)
  {
    assert CommittedBy(h, log, i, t, Commit(t, i));
  }

  lemma DecideKeepsCommits(s: State, n: NodeId, i: nat)
    requires Inv(s) && Decidable(s, n, i)
    requires var q := Decide(s, n, i); Extends(s.h, q.h) && Agree(s.peers[n].log, q.h.chosen, i)
    ensures var q := Decide(s, n, i);
            && (forall r {:trigger CommitInv(q, r)} :: CommitInv(q, r))
            && (q.h.chosen == [] || exists r :: r in q.h.commits && r.index == |q.h.chosen|)
  {
    hide VoteInv, AckInv, VoteAckInv, CampaignInv, LeaderInv, PeerInv, PeerCommitInv;
    var q := Decide(s, n, i);
    assert RoleInv(s, n);
    forall r ensures CommitInv(q, r) {
      assert Ackers(q.h, r.term, r.index) == Ackers(s.h, r.term, r.index);
      if r in s.h.commits {
        DecideAgrees(s, n, i, r);
      }
    }
    if i > |s.h.chosen| {
      var made := Commit(s.peers[n].term, i);
      assert made in q.h.commits && made.index == |q.h.chosen|;
    }
  }

  lemma DecideKeepsLeader(s: State, n: NodeId, i: nat)
    requires Inv(s) && Decidable(s, n, i) && Extends(s.h, Decide(s, n, i).h)
    ensures LeaderInv(Decide(s, n, i), s.peers[n].term)
  {
    hide VoteInv, AckInv, VoteAckInv, CampaignInv, CommitInv, PeerCommitInv;
    var t := s.peers[n].term;
    assert RoleInv(s, n) && LeaderInv(s, t);
    LogInvExtends(s.h.logs[t], s.h, Decide(s, n, i).h);
  }

  lemma DecideKeepsInv(s: State, n: NodeId, i: nat)
    requires Inv(s) && Decidable(s, n, i)
    ensures Inv(Decide(s, n, i)) && Extends(s.h, Decide(s, n, i).h)
  {
    hide Inv, PeerInv, PeerCommitInv, CampaignInv, VoteInv, LeaderInv, AckInv, VoteAckInv, CommitInv, LeaderCommits;
    var q := Decide(s, n, i);
    assert RoleInv(s, n) by { LeaderRole(s, n); }
    BallotsAreVotes(s);
    OwnVotes(s);
    DecideKeepsPeer(s, n, i);
    DecideKeepsCommits(s, n, i);
    DecideKeepsLeader(s, n, i);
    NodeAcks(s, q, n);
    NoNewBallots(s, q);
    SameVotes(s, q, n);
    SameLeaders(s, q, n);
    forall u ensures Fixed(s, q, n, u) {}
    Preserve(s, q, n);
  }

  // ------------------------------------------------------------------ genesis

  function Genesis(cfg: Configuration, covering: bool): State {
    State(cfg, map n | n in cfg.participants :: Peer(0, None, [], 0, Passive),
          History(map[], {}, {}, map[], map[], {}, {}, [], map[], covering))
  }

  lemma GenesisInv(cfg: Configuration, covering: bool)
    requires cfg.Valid()
    ensures Inv(Genesis(cfg, covering))
  {
  }
}
