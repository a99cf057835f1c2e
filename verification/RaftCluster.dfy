/** A cluster of nodes over a network that loses, duplicates and reorders, with
    crashes after any prefix of an action list; and the invariant that ties every
    node and every packet to the history of RaftSafety. */
module RaftCluster {
  import opened Wrappers
  import opened Ordering
  import opened RaftTypes
  import opened RaftLog
  import opened RaftNode
  import opened RaftSafety
  import StableStore

  datatype Packet = Packet(from: NodeId, to: NodeId, message: Message)

  /** Nodes and every packet ever sent.  Losing a packet is never delivering it,
      duplication is delivering it again.  `asked` lists the reads nodes have taken
      on, in order, `built` holds the local snapshots they were given. */
  datatype System = System(
    cfg: Configuration,
    nodes: map<NodeId, Node>,
    net: set<Packet>,
    asked: seq<(NodeId, Bytes)>,
    built: set<PersistentSnapshot>)

  /** One input to one node; `crash` stops it after that many executed actions. */
  datatype Event = Event(node: NodeId, input: Input, crash: Option<nat>)

  function Sends(n: NodeId, actions: seq<Action>): set<Packet> {
    set a | a in actions && a.Send? :: Packet(n, a.to, a.message)
  }

  function After(sys: System, n: NodeId, actions: seq<Action>, node: Node): System {
    sys.(nodes := sys.nodes[n := node], net := sys.net + Sends(n, actions))
  }

  predicate Usable(s: PersistentSnapshot) {
    0 < |s.data| <= MAX_SNAPSHOT_BYTES && s.metadata.lastIncludedIndex > 0
  }

  /** The node takes the read on. */
  predicate Accepts(node: Node, context: Bytes) {
    && node.role == Leader && context != [] && context !in node.pendingReads
    && node.log.Term(node.hardState.commitIndex) == Some(node.Term())
  }

  /** What the network and the environment may do: deliver whatever was sent, in any
      order and any number of times, ask anything, and supply snapshots with content. */
  predicate Allowed(sys: System, e: Event) {
    && e.node in sys.nodes
    && (match e.input
        case Receive(from, message) => Packet(from, e.node, message) in sys.net
        case SnapshotBuilt(s) => Usable(s)
        case _ => true)
    && (e.crash.Some? ==> e.crash.value <= |Step(sys.nodes[e.node], e.input).actions|)
  }

  function Lesser(a: nat, b: nat): nat {
    if a <= b then a else b
  }

  /** The batch is already in the node's log and ends short of both the announced
      commit index and the log, and the node has not committed that far. */
  predicate Overcommits(node: Node, m: Message) {
    && m.AppendEntries? && m.term >= node.Term()
    && node.log.baseIndex <= m.prevLogIndex && node.log.Term(m.prevLogIndex) == Some(m.prevLogTerm)
    && ScanFrom(node.log, node.hardState.commitIndex, m.entries, 0).Present?
    && Greater(node.hardState.commitIndex, m.prevLogIndex + |m.entries|) < Lesser(m.leaderCommit, node.log.LastIndex())
  }

  function Greater(a: nat, b: nat): nat {
    if a <= b then b else a
  }

  /** The event delivers no append that overcommits. */
  predicate Covering(sys: System, e: Event) {
    e.node in sys.nodes && e.input.Receive? ==> !Overcommits(sys.nodes[e.node], e.input.message)
  }

  /** An answer to `n` that names `context` and the term `n` is in. */
  predicate Echo(p: Packet, n: NodeId, term: nat, context: Bytes) {
    p.to == n && p.message.AppendEntriesResponse? && p.message.term == term && p.message.readContext == Some(context)
  }

  predicate Echoed(sys: System, n: NodeId, term: nat, context: Bytes) {
    exists p {:trigger Echo(p, n, term, context)} :: p in sys.net && Echo(p, n, term, context)
  }

  /** The event has no node take on a read that has been answered beforehand. */
  predicate Fresh(sys: System, e: Event) {
    e.node in sys.nodes && e.input.ReadIndex? && Accepts(sys.nodes[e.node], e.input.context) ==>
      !Echoed(sys, e.node, sys.nodes[e.node].Term(), e.input.context)
  }

  function Executed(sys: System, e: Event): seq<Action>
    requires Allowed(sys, e)
  {
    var acts := Step(sys.nodes[e.node], e.input).actions;
    if e.crash.Some? then acts[..e.crash.value] else acts
  }

  /** What the environment handed over with this event. */
  function Offered(sys: System, e: Event): System {
    match e.input
    case ReadIndex(context) =>
      if e.node in sys.nodes && Accepts(sys.nodes[e.node], context) then sys.(asked := sys.asked + [(e.node, context)])
      else sys
    case SnapshotBuilt(s) => sys.(built := sys.built + {s})
    case _ => sys
  }

  function Reboot(sys: System, n: NodeId, actions: seq<Action>): Result<Node, RecoveryError>
    requires n in sys.nodes
  {
    match StableStore.ExecuteAll(sys.nodes[n].Stable(), actions)
    case Ok(disk) => Recover(n, sys.cfg, disk)
    case Err(_) => Err(InvalidLog)
  }

  function Next(sys: System, e: Event): System
    requires Allowed(sys, e)
  {
    var acts := Executed(sys, e);
    var node := if e.crash.None? then Step(sys.nodes[e.node], e.input).node
                else
                  match Reboot(sys, e.node, acts)
                  case Ok(r) => r
                  case Err(_) => sys.nodes[e.node];
    After(Offered(sys, e), e.node, acts, node)
  }

  function Boot(cfg: Configuration, n: NodeId): Node {
    Node(n, cfg, HardState(0, None, 0), LogView(0, 0, []), None, 0, Follower, None, None, {}, map[], {}, map[], None)
  }

  function Initial(cfg: Configuration): System {
    System(cfg, map n | n in cfg.participants :: Boot(cfg, n), {}, [], {})
  }

  // ------------------------------------------------------------ abstraction

  /** A compacted prefix is a prefix of the log of the leader of its last entry's term. */
  predicate BaseOk(log: LogView, logs: map<nat, Log>) {
    if log.baseIndex == 0 then log.baseTerm == 0
    else
      && log.baseTerm in logs && log.baseIndex <= |logs[log.baseTerm]|
      && TermAt(logs[log.baseTerm], log.baseIndex) == log.baseTerm
  }

  function FullLog(log: LogView, logs: map<nat, Log>): Log {
    (if log.baseTerm in logs && log.baseIndex <= |logs[log.baseTerm]| then logs[log.baseTerm][..log.baseIndex] else [])
    + log.entries
  }

  function RoleOf(r: Role): PeerRole {
    match r
    case Leader => Leading
    case Candidate => Campaigning
    case _ => Passive
  }

  function PeerOf(node: Node, logs: map<nat, Log>): Peer {
    Peer(node.Term(), node.hardState.votedFor, FullLog(node.log, logs), node.hardState.commitIndex, RoleOf(node.role))
  }

  function Abs(sys: System, h: History): State {
    State(sys.cfg, map n | n in sys.nodes :: PeerOf(sys.nodes[n], h.logs), h)
  }

  /** A read, as of its acceptance as the `at`-th: its index, how much was committed
      anywhere (`floor`), and every node's term. */
  datatype Reading = Reading(node: NodeId, context: Bytes, at: nat, term: nat, index: nat, floor: nat,
                             terms: map<NodeId, nat>)

  /** The reads of interest: none, any, or those of one node for one context. */
  datatype Watch = NoRead | AnyRead | OneRead(node: NodeId, context: Bytes) {
    predicate Covers(n: NodeId, c: Bytes) {
      AnyRead? || (OneRead? && node == n && context == c)
    }
  }

  /** No read under `watch` was answered before it was taken on. */
  datatype Past = Past(h: History, readings: set<Reading>, watch: Watch)

  /** While a node handles an event only the history grows. */
  ghost predicate PastExtends(p: Past, q: Past) {
    Extends(p.h, q.h) && q.readings == p.readings && q.watch == p.watch
  }

  /** From event to event reads are added, each starting from what is chosen by then. */
  ghost predicate PastGrows(p: Past, q: Past) {
    && Extends(p.h, q.h) && p.readings <= q.readings && q.watch == p.watch
    && forall r {:trigger r in q.readings} :: r in q.readings && r !in p.readings ==> r.floor >= |p.h.chosen|
  }

  // -------------------------------------------------------------- invariant

  predicate ShapeOk(node: Node, logs: map<nat, Log>) {
    && node.log.baseIndex <= node.appliedIndex <= node.hardState.commitIndex
    && node.hardState.commitIndex <= node.log.baseIndex + |node.log.entries|
    && BaseOk(node.log, logs)
  }

  predicate SnapshotOk(cfg: Configuration, built: set<PersistentSnapshot>, node: Node) {
    match node.snapshot
    case None => node.log.baseIndex == 0
    case Some(s) =>
      && s in built && s.Validate() && Usable(s) && s.metadata.configuration == cfg
      && s.metadata.lastIncludedIndex == node.log.baseIndex && s.metadata.lastIncludedTerm == node.log.baseTerm
  }

  /** `v` acknowledged the leader of term `t` through `i`, or that leader had
      committed as much by itself. */
  predicate Holds(h: History, v: NodeId, t: nat, i: nat) {
    Through(v, t, i) <= h.acks || (t in h.reach && i <= h.reach[t])
  }

  predicate ProgressOk(past: Past, node: Node, v: NodeId) {
    v in node.progress ==>
      && node.progress[v].nextIndex >= 1
      && (node.progress[v].matchIndex == 0 || Holds(past.h, v, node.Term(), node.progress[v].matchIndex))
  }

  /** Nodes that had not passed the read's term when it was accepted. */
  function Behind(r: Reading): set<NodeId> {
    set m | m in r.terms && r.terms[m] <= r.term
  }

  function Ahead(r: Reading): set<NodeId> {
    set m | m in r.terms && r.terms[m] > r.term
  }

  predicate Records(r: Reading, n: NodeId, context: Bytes) {
    r.node == n && r.context == context
  }

  /** No later acceptance of the same context by the same node. */
  predicate Latest(past: Past, r: Reading) {
    r in past.readings &&
    forall o {:trigger Records(o, r.node, r.context)} ::
        o in past.readings && Records(o, r.node, r.context) ==> o.at <= r.at
  }

  ghost predicate PendingOk(past: Past, node: Node, context: Bytes) {
    past.watch.Covers(node.id, context) && context in node.pendingReads ==>
      node.role == Leader && exists r {:trigger Latest(past, r)} :: Latest(past, r) && Awaits(node, context, r)
  }

  predicate Awaits(node: Node, context: Bytes, r: Reading) {
    && Records(r, node.id, context)
    && context in node.pendingReads && r.term == node.Term() && r.index == node.pendingReads[context].index
    && node.pendingReads[context].acknowledgements <= Behind(r)
  }

  ghost predicate NodeOk(cfg: Configuration, built: set<PersistentSnapshot>, past: Past, n: NodeId, node: Node) {
    && node.id == n && node.configuration == cfg
    && ShapeOk(node, past.h.logs)
    && SnapshotOk(cfg, built, node)
    && (node.role == Candidate ==> node.votes <= Voters(past.h.votes, node.Term(), n))
    && (node.role == PreCandidate ==> node.campaignTerm == Some(node.Term() + 1))
    && (node.role == Leader ==>
          node.progress.Keys == cfg.participants && forall v {:trigger ProgressOk(past, node, v)} ::
              ProgressOk(past, node, v))
    && (forall c {:trigger PendingOk(past, node, c)} :: PendingOk(past, node, c))
  }

  /** Whoever answers under a read's term had not passed it when the read was accepted. */
  predicate EchoOk(past: Past, leader: NodeId, responder: NodeId, term: nat, context: Option<Bytes>) {
    context.Some? && past.watch.Covers(leader, context.value) ==>
      forall r {:trigger Records(r, leader, context.value)} ::
        r in past.readings && Records(r, leader, context.value) && r.term == term ==> responder in Behind(r)
  }

  /** The read a context stands for was taken on by the leader. */
  predicate Known(past: Past, leader: NodeId, context: Option<Bytes>) {
    context.Some? ==> exists r {:trigger Records(r, leader, context.value)} ::
                        r in past.readings && Records(r, leader, context.value)
  }

  predicate AppendOk(past: Past, from: NodeId, m: Message)
    requires m.AppendEntries?
  {
    && m.term in past.h.logs && m.term in past.h.leaders && past.h.leaders[m.term] == m.leaderId == from
    && m.term in past.h.reach && m.leaderCommit <= past.h.reach[m.term]
    && var l := past.h.logs[m.term];
       && m.prevLogIndex + |m.entries| <= |l|
       && m.prevLogTerm == TermAt(l, m.prevLogIndex)
       && (forall k :: 0 <= k < |m.entries| ==> m.entries[k] == l[m.prevLogIndex + k])
  }

  ghost predicate PacketOk(cfg: Configuration, built: set<PersistentSnapshot>, past: Past, p: Packet) {
    p.from in cfg.participants &&
    match p.message
    case PreVoteRequest(_, _, _, _) => true
    case PreVoteResponse(_, _, _) => true
    case RequestVote(t, c, i, lt) =>
      (c, t) in past.h.campaigns && i == |past.h.campaigns[(c, t)]| && lt == LastTerm(past.h.campaigns[(c, t)])
    case RequestVoteResponse(t, granted) =>
      granted ==> Vote(p.from, t, p.to) in past.h.votes
    case AppendEntries(t, _, _, _, _, commit, context) =>
      && AppendOk(past, p.from, p.message) && Known(past, p.from, context)
      && (past.h.covering ==> Committed(past.h, past.h.logs[t], commit, t))
    case AppendEntriesResponse(t, success, i, _, _, context) =>
      && (success ==> Through(p.from, t, i) <= past.h.acks)
      && EchoOk(past, p.to, p.from, t, context) && Known(past, p.to, context)
    case InstallSnapshot(t, leader, d, _, _, _) =>
      && t in past.h.logs && t in past.h.leaders && past.h.leaders[t] == leader == p.from
      && t in past.h.reach && d.lastIncludedIndex <= past.h.reach[t] && d.lastIncludedIndex <= |past.h.logs[t]|
      && (past.h.covering ==> Committed(past.h, past.h.logs[t], d.lastIncludedIndex, t))
      && d.lastIncludedTerm == TermAt(past.h.logs[t], d.lastIncludedIndex)
      && exists s :: s in built && s.metadata == d && s.Validate() && Usable(s)
    case InstallSnapshotResponse(t, accepted, _, done, i) =>
      accepted && done ==> Holds(past.h, p.from, t, i)
  }

  /** Either the read already covers everything committed when it was accepted,
      or a quorum had moved past its term by then. */
  predicate ReadOk(sys: System, past: Past, r: Reading) {
    r in past.readings ==>
      && r.at < |sys.asked| && sys.asked[r.at] == (r.node, r.context)
      && r.terms.Keys == sys.cfg.participants
      && (forall m :: m in sys.nodes && m in r.terms ==> r.terms[m] <= sys.nodes[m].Term())
      && (r.floor <= r.index || sys.cfg.Quorum(Ahead(r)))
  }

  predicate Noted(asked: seq<(NodeId, Bytes)>, readings: set<Reading>, k: nat) {
    k < |asked| && exists r :: r in readings && r.at == k && Records(r, asked[k].0, asked[k].1)
  }

  /** Every acceptance is recorded. */
  predicate Complete(asked: seq<(NodeId, Bytes)>, readings: set<Reading>) {
    forall k {:trigger Noted(asked, readings, k)} :: 0 <= k < |asked| ==> Noted(asked, readings, k)
  }

  ghost predicate SystemInv(sys: System, past: Past) {
    && sys.nodes.Keys == sys.cfg.participants
    && Complete(sys.asked, past.readings)
    && Inv(Abs(sys, past.h))
    && (forall n {:trigger NodeOk(sys.cfg, sys.built, past, n, sys.nodes[n])} ::
          n in sys.nodes ==> NodeOk(sys.cfg, sys.built, past, n, sys.nodes[n]))
    && (forall p {:trigger PacketOk(sys.cfg, sys.built, past, p)} ::
          p in sys.net ==> PacketOk(sys.cfg, sys.built, past, p))
    && (forall r {:trigger ReadOk(sys, past, r)} :: ReadOk(sys, past, r))
  }

  /** What an emitted action promises. */
  ghost predicate ActionOk(past: Past, n: NodeId, a: Action) {
    match a
    case Apply(e) => past.h.covering ==> 1 <= e.index <= |past.h.chosen| && past.h.chosen[e.index - 1] == e
    case RoleChanged(role, t) => role == Leader ==> t in past.h.leaders && past.h.leaders[t] == n
    case ReadReady(c, i) =>
      past.watch.Covers(n, c) ==>
        exists r {:trigger Latest(past, r)} :: Latest(past, r) && Records(r, n, c) && r.floor <= i
    case Fatal(reason) => !past.h.covering && reason.ReplacedCommitted?
    case _ => true
  }

  ghost predicate ActionsOk(past: Past, n: NodeId, actions: seq<Action>) {
    forall a {:trigger ActionOk(past, n, a)} :: a in actions ==> ActionOk(past, n, a)
  }
}
