/** Safety of the cluster over every run. */
module RaftTheorems {
  import opened Wrappers
  import opened Ordering
  import opened RaftTypes
  import opened RaftLog
  import opened RaftNode
  import opened RaftSafety
  import opened RaftCluster
  import opened RaftMoves
  import opened RaftElections
  import opened RaftVotes
  import opened RaftReplication
  import opened RaftLeading
  import opened RaftInstall
  import StableStore

  // ------------------------------------------------------------------- one step

  /** The event meets whatever this history was promised. */
  predicate Kept(past: Past, sys: System, e: Event) {
    (past.h.covering ==> Covering(sys, e)) && (Takes(e, past.watch) ==> Fresh(sys, e))
  }

  /** The event is to take on a read of interest. */
  predicate Takes(e: Event, watch: Watch) {
    e.input.ReadIndex? && watch.Covers(e.node, e.input.context)
  }

  /** A read that is taken on is recorded. */
  function OfferedPast(sys: System, past: Past, e: Event): Past {
    if e.input.ReadIndex? && e.node in sys.nodes && Accepts(sys.nodes[e.node], e.input.context)
    then WithReading(past, Record(sys, past, e.node, e.input.context))
    else past
  }

  /** What the environment supplies keeps the invariant. */
  lemma OfferedInv(sys: System, past: Past, e: Event)
    requires e.node in sys.nodes && Kept(past, sys, e)
    requires SystemInv(sys, past)
    ensures SystemInv(Offered(sys, e), OfferedPast(sys, past, e)) && PastGrows(past, OfferedPast(sys, past, e))
  {
    hide SystemInv, Extends, Accepts, Echoed, Covering;
    ExtendsReflexive(past.h);
    if e.input.SnapshotBuilt? {
      BuiltInv(sys, past, e.input.snapshot);
    } else if e.input.ReadIndex? && Accepts(sys.nodes[e.node], e.input.context) {
      AskedInv(sys, past, e.node, e.input.context);
    }
  }

  lemma BuiltInv(sys: System, past: Past, s: PersistentSnapshot)
    requires SystemInv(sys, past)
    ensures SystemInv(sys.(built := sys.built + {s}), past)
  {
    hide Inv;
    var t := sys.(built := sys.built + {s});
    assert Abs(t, past.h) == Abs(sys, past.h);
    forall n | n in t.nodes ensures NodeOk(t.cfg, t.built, past, n, t.nodes[n]) {
      assert NodeOk(sys.cfg, sys.built, past, n, sys.nodes[n]);
      NodeOkBuilt(sys.cfg, sys.built, t.built, past, n, sys.nodes[n]);
    }
    forall p | p in t.net ensures PacketOk(t.cfg, t.built, past, p) {
      assert PacketOk(sys.cfg, sys.built, past, p);
      PacketOkBuilt(sys.cfg, sys.built, t.built, past, p);
    }
    forall r ensures ReadOk(t, past, r) {
      assert ReadOk(sys, past, r);
    }
  }

  lemma NodeOkBuilt(cfg: Configuration, a: set<PersistentSnapshot>, b: set<PersistentSnapshot>, past: Past,
                    n: NodeId, node: Node)
    requires NodeOk(cfg, a, past, n, node) && a <= b
    ensures NodeOk(cfg, b, past, n, node)
  {
  }

  lemma PacketOkBuilt(cfg: Configuration, a: set<PersistentSnapshot>, b: set<PersistentSnapshot>, past: Past, p: Packet)
    requires PacketOk(cfg, a, past, p) && a <= b
    ensures PacketOk(cfg, b, past, p)
  {
  }

  /** A delivered packet was sent, so it means what its sender meant. */
  lemma PacketHere(sys: System, past: Past, p: Packet)
    requires SystemInv(sys, past) && p in sys.net
    ensures PacketOk(sys.cfg, sys.built, past, p)
  {
    hide Inv, NodeOk, ReadOk;
  }

  lemma OnMessageSafe(sys: System, past: Past, n: NodeId, from: NodeId, m: Message) returns (q: Past)
    requires n in sys.nodes && Packet(from, n, m) in sys.net && (past.h.covering ==> !Overcommits(sys.nodes[n], m))
    requires sys.nodes[n].appliedIndex >= sys.nodes[n].hardState.commitIndex
    requires SystemInv(sys, past)
    ensures var o := OnMessage(sys.nodes[n], from, m); Safe(sys, past, n, o.actions, o.node, q)
  {
    hide SystemInv, Safe, Through, EchoOk, Known, AppendOk, Committed, Holds, Overcommits;
    hide OnPreVoteRequest, OnPreVoteResponse, OnVoteRequest, OnVoteResponse, OnAppendEntries, OnAppendResponse,
         OnInstallSnapshot, OnSnapshotResponse;
    PacketHere(sys, past, Packet(from, n, m));
    q := past;
    if !sys.nodes[n].configuration.Contains(from) || from == sys.nodes[n].id {
      EmitNothing(sys, past, n);
    } else {
      match m
      case PreVoteRequest(t, c, i, lt) => OnPreVoteRequestSafe(sys, past, n, from, t, c, i, lt);
      case PreVoteResponse(rt, pt, granted) => q := OnPreVoteResponseSafe(sys, past, n, from, rt, pt, granted);
      case RequestVote(t, c, i, lt) => q := OnVoteRequestSafe(sys, past, n, from, t, c, i, lt);
      case RequestVoteResponse(t, granted) => q := OnVoteResponseSafe(sys, past, n, from, t, granted);
      case AppendEntries(_, _, _, _, _, _, _) => q := OnAppendEntriesSafe(sys, past, n, from, m);
      case AppendEntriesResponse(_, _, _, _, _, _) => q := OnAppendResponseSafe(sys, past, n, from, m);
      case InstallSnapshot(_, _, _, _, _, _) => q := OnInstallSnapshotSafe(sys, past, n, from, m);
      case InstallSnapshotResponse(_, _, _, _, _) => q := OnSnapshotResponseSafe(sys, past, n, from, m);
    }
  }

  function Handle(n: Node, input: Input): Out {
    match input
    case TickInput(tick) => OnTick(n, tick)
    case Receive(from, message) => OnMessage(n, from, message)
    case Propose(id, command) => OnPropose(n, id, command)
    case ReadIndex(context) => OnReadIndex(n, context)
    case SnapshotBuilt(snapshot) => OnSnapshotBuilt(n, snapshot)
  }

  /** The environment's part of the bargain, once the input is handed over. */
  ghost predicate Ready(sys: System, past: Past, n: NodeId, input: Input) {
    n in sys.nodes &&
    match input
    case Receive(from, message) =>
      Packet(from, n, message) in sys.net && (past.h.covering ==> !Overcommits(sys.nodes[n], message))
    case ReadIndex(context) =>
      Accepts(sys.nodes[n], context) ==>
        exists r {:trigger Latest(past, r)} :: Latest(past, r) && Recorded(sys.nodes[n], context, r)
    case SnapshotBuilt(s) => Usable(s) && s in sys.built
    case _ => true
  }

  lemma HandleSafe(sys: System, past: Past, n: NodeId, input: Input) returns (q: Past)
    requires Ready(sys, past, n, input)
    requires sys.nodes[n].appliedIndex >= sys.nodes[n].hardState.commitIndex
    requires SystemInv(sys, past)
    ensures var o := Handle(sys.nodes[n], input); Safe(sys, past, n, o.actions, o.node, q)
  {
    hide SystemInv, Safe, OnTick, OnMessage, OnPropose, OnReadIndex, OnSnapshotBuilt;
    match input
    case TickInput(tick) => q := OnTickSafe(sys, past, n, tick);
    case Receive(from, message) => q := OnMessageSafe(sys, past, n, from, message);
    case Propose(id, command) => q := OnProposeSafe(sys, past, n, id, command);
    case ReadIndex(context) => OnReadIndexSafe(sys, past, n, context); q := past;
    case SnapshotBuilt(s) => OnSnapshotBuiltSafe(sys, past, n, s); q := past;
  }

  /** Replaying committed entries first changes nothing the handler's premises mention. */
  lemma ReadyAfterReplay(sys: System, past: Past, n: NodeId, input: Input)
    requires Ready(sys, past, n, input)
    ensures var o := ApplyCommitted(sys.nodes[n]); Ready(After(sys, n, o.actions, o.node), past, n, input)
  {
    ApplyKeepsRole(sys.nodes[n]);
  }

  lemma StepSafe(sys: System, past: Past, n: NodeId, input: Input) returns (q: Past)
    requires Ready(sys, past, n, input)
    requires SystemInv(sys, past)
    ensures var o := Step(sys.nodes[n], input); Safe(sys, past, n, o.actions, o.node, q)
  {
    hide SystemInv, Safe, Ready, ApplyCommitted, OnTick, OnMessage, OnPropose, OnReadIndex, OnSnapshotBuilt;
    assert n in sys.nodes by { ReadyNode(sys, past, n, input); }
    ApplySafe(sys, past, n);
    var replay := ApplyCommitted(sys.nodes[n]);
    MidInv(sys, past, n, replay, past);
    ReadyAfterReplay(sys, past, n, input);
    var t := After(sys, n, replay.actions, replay.node);
    q := HandleSafe(t, past, n, input);
    Then2(sys, past, n, replay, past, Handle(replay.node, input), q);
  }

  lemma ReadyNode(sys: System, past: Past, n: NodeId, input: Input)
    requires Ready(sys, past, n, input)
    ensures n in sys.nodes
  {
  }

  lemma AllowedReady(sys: System, past: Past, e: Event)
    requires Allowed(sys, e) && Kept(past, sys, e)
    requires SystemInv(sys, past)
    ensures Ready(Offered(sys, e), OfferedPast(sys, past, e), e.node, e.input)
  {
    hide SystemInv, Step, LogView.Term, Latest, Recorded, Overcommits, Echoed;
    if e.input.ReadIndex? {
      RecordIsLatest(sys, past, e.node, e.input.context);
    }
  }

  lemma PastGrowsThen(a: Past, b: Past, c: Past)
    requires PastGrows(a, b) && PastGrows(b, c)
    ensures PastGrows(a, c)
  {
    hide Extends;
    ExtendsTransitive(a, b, c);
    ChosenGrows(a.h, b.h);
  }

  lemma ChosenGrows(h: History, g: History)
    requires Extends(h, g)
    ensures |h.chosen| <= |g.chosen|
  {
  }

  /** Every event, crashed or not, keeps the invariant and emits only sound actions. */
  lemma NextSafe(sys: System, past: Past, e: Event) returns (q: Past)
    requires Allowed(sys, e) && Kept(past, sys, e)
    requires SystemInv(sys, past)
    ensures PastGrows(past, q) && SystemInv(Next(sys, e), q) && ActionsOk(q, e.node, Executed(sys, e))
  {
    hide SystemInv, ActionsOk, Step, Ready, Extends, Kept, OfferedPast;
    OfferedInv(sys, past, e);
    AllowedReady(sys, past, e);
    var t, g := Offered(sys, e), OfferedPast(sys, past, e);
    q := StepSafe(t, g, e.node, e.input);
    var o := Step(sys.nodes[e.node], e.input);
    if e.crash.Some? {
      assert CrashSafe(t, g, e.node, o.actions, e.crash.value);
      var acts := o.actions[..e.crash.value];
      var r := Reboot(t, e.node, acts);
      q :| PastExtends(g, q) && SystemInv(After(t, e.node, acts, r.value), q) && ActionsOk(q, e.node, acts);
    }
    PastGrowsThen(past, g, q);
  }

  // ------------------------------------------------------------------------ runs

  predicate ValidRun(sys: System, events: seq<Event>)
    decreases |events|
  {
    events == [] || (Allowed(sys, events[0]) && ValidRun(Next(sys, events[0]), events[1..]))
  }

  function Run(sys: System, events: seq<Event>): System
    requires ValidRun(sys, events)
    decreases |events|
  {
    if events == [] then sys else Run(Next(sys, events[0]), events[1..])
  }

  /** Everything executed over a run, by whom. */
  function Emitted(sys: System, events: seq<Event>): set<(NodeId, Action)>
    requires ValidRun(sys, events)
    decreases |events|
  {
    if events == [] then {}
    else (set a | a in Executed(sys, events[0]) :: (events[0].node, a)) + Emitted(Next(sys, events[0]), events[1..])
  }

  /** No delivery of the run overcommits a follower. */
  predicate CoveringRun(sys: System, events: seq<Event>)
    requires ValidRun(sys, events)
    decreases |events|
  {
    events == [] || (Covering(sys, events[0]) && CoveringRun(Next(sys, events[0]), events[1..]))
  }

  /** No read of interest is answered before it is taken on. */
  predicate FreshRun(sys: System, events: seq<Event>, watch: Watch)
    requires ValidRun(sys, events)
    decreases |events|
  {
    events == []
    || ((Takes(events[0], watch) ==> Fresh(sys, events[0])) && FreshRun(Next(sys, events[0]), events[1..], watch))
  }

  lemma {:induction false} FreshForEach(sys: System, events: seq<Event>, watch: Watch)
    requires ValidRun(sys, events) && FreshRun(sys, events, AnyRead)
    ensures FreshRun(sys, events, watch)
    decreases |events|
  {
    hide Allowed, Next, Fresh;
    if events != [] {
      FreshForEach(Next(sys, events[0]), events[1..], watch);
    }
  }

  predicate KeptRun(past: Past, sys: System, events: seq<Event>)
    requires ValidRun(sys, events)
  {
    (past.h.covering ==> CoveringRun(sys, events)) && (past.watch.NoRead? || FreshRun(sys, events, past.watch))
  }

  /** What lasts of an action's promise as the history goes on. */
  ghost predicate Lasting(past: Past, n: NodeId, a: Action) {
    a.ReadReady? || ActionOk(past, n, a)
  }

  ghost predicate EmittedOk(past: Past, out: set<(NodeId, Action)>) {
    forall x {:trigger Lasting(past, x.0, x.1)} :: x in out ==> Lasting(past, x.0, x.1)
  }

  lemma EmittedExtends(p: Past, q: Past, out: set<(NodeId, Action)>)
    requires EmittedOk(p, out) && PastGrows(p, q)
    ensures EmittedOk(q, out)
  {
    forall x | x in out ensures Lasting(q, x.0, x.1) {
      assert Lasting(p, x.0, x.1);
      if x.1.RoleChanged? {
        assert SameLeader(p.h, q.h, x.1.term);
      }
    }
  }

  lemma ExecutedEmitted(past: Past, n: NodeId, actions: seq<Action>)
    requires ActionsOk(past, n, actions)
    ensures EmittedOk(past, set a | a in actions :: (n, a))
  {
    forall x | x in (set a | a in actions :: (n, a)) ensures Lasting(past, x.0, x.1) {
      assert ActionOk(past, n, x.1);
    }
  }

  lemma {:induction false} RunSafe(sys: System, past: Past, events: seq<Event>) returns (q: Past)
    requires ValidRun(sys, events) && KeptRun(past, sys, events)
    requires SystemInv(sys, past)
    ensures PastGrows(past, q) && SystemInv(Run(sys, events), q) && EmittedOk(q, Emitted(sys, events))
    decreases |events|
  {
    hide SystemInv, ActionOk, Allowed, Next, Executed, Extends, Covering, Fresh, ActionsOk, Lasting;
    q := past;
    if events == [] {
      ExtendsReflexive(past.h);
    } else {
      var e := events[0];
      var g := NextSafe(sys, past, e);
      SamePromises(past, g);
      q := RunSafe(Next(sys, e), g, events[1..]);
      PastGrowsThen(past, g, q);
      ExecutedEmitted(g, e.node, Executed(sys, e));
      EmittedExtends(g, q, set a | a in Executed(sys, e) :: (e.node, a));
    }
  }

  lemma SamePromises(p: Past, q: Past)
    requires PastGrows(p, q)
    ensures q.h.covering == p.h.covering && q.watch == p.watch
  {
  }

  lemma {:induction false} RunSplit(sys: System, events: seq<Event>, i: nat)
    requires ValidRun(sys, events) && i <= |events|
    ensures ValidRun(sys, events[..i]) && ValidRun(Run(sys, events[..i]), events[i..])
    ensures Run(Run(sys, events[..i]), events[i..]) == Run(sys, events)
    ensures Emitted(sys, events) == Emitted(sys, events[..i]) + Emitted(Run(sys, events[..i]), events[i..])
    ensures CoveringRun(sys, events) ==> CoveringRun(sys, events[..i])
                                         && CoveringRun(Run(sys, events[..i]), events[i..])
    decreases i
  {
    hide Allowed, Next, Executed;
    if i == 0 {
      assert events[0..] == events;
    } else {
      assert events[1..][..i - 1] == events[..i][1..];
      assert events[1..][i - 1..] == events[i..];
      RunSplit(Next(sys, events[0]), events[1..], i - 1);
    }
  }

  lemma {:induction false} FreshSplit(sys: System, events: seq<Event>, i: nat, watch: Watch)
    requires ValidRun(sys, events) && i <= |events| && FreshRun(sys, events, watch)
    ensures ValidRun(sys, events[..i]) && ValidRun(Run(sys, events[..i]), events[i..])
    ensures FreshRun(sys, events[..i], watch) && FreshRun(Run(sys, events[..i]), events[i..], watch)
    decreases i
  {
    hide Allowed, Next, Fresh;
    RunSplit(sys, events, i);
    if i == 0 {
      assert events[0..] == events;
    } else {
      assert events[1..][..i - 1] == events[..i][1..];
      assert events[1..][i - 1..] == events[i..];
      FreshSplit(Next(sys, events[0]), events[1..], i - 1, watch);
    }
  }

  // -------------------------------------------------------------- initial states

  function Dawn(cfg: Configuration, covering: bool, watch: Watch): Past {
    Past(Genesis(cfg, covering).h, {}, watch)
  }

  lemma BootOk(cfg: Configuration, n: NodeId, past: Past)
    ensures NodeOk(cfg, {}, past, n, Boot(cfg, n))
  {
    forall c ensures PendingOk(past, Boot(cfg, n), c) {}
  }

  lemma InitialInv(cfg: Configuration, covering: bool, watch: Watch)
    requires cfg.Valid()
    ensures SystemInv(Initial(cfg), Dawn(cfg, covering, watch))
  {
    hide NodeOk, Inv, PacketOk;
    GenesisInv(cfg, covering);
    var sys, past := Initial(cfg), Dawn(cfg, covering, watch);
    assert Abs(sys, past.h) == Genesis(cfg, covering) by {
      assert FullLog(LogView(0, 0, []), map[]) == [];
      assert Abs(sys, past.h).peers == Genesis(cfg, covering).peers;
    }
    forall n | n in sys.nodes ensures NodeOk(sys.cfg, sys.built, past, n, sys.nodes[n]) {
      BootOk(cfg, n, past);
    }
    forall r ensures ReadOk(sys, past, r) {}
  }

  /** A run of the cluster from its first boot. */
  predicate ClusterRun(cfg: Configuration, events: seq<Event>) {
    cfg.Valid() && ValidRun(Initial(cfg), events)
  }

  function At(cfg: Configuration, events: seq<Event>, i: nat): System
    requires ClusterRun(cfg, events) && i <= |events|
  {
    RunSplit(Initial(cfg), events, i);
    Run(Initial(cfg), events[..i])
  }

  function Outputs(cfg: Configuration, events: seq<Event>): set<(NodeId, Action)>
    requires ClusterRun(cfg, events)
  {
    Emitted(Initial(cfg), events)
  }

  /** Which of the two promises a run makes. */
  predicate Promised(cfg: Configuration, events: seq<Event>, covering: bool, watch: Watch)
    requires ClusterRun(cfg, events)
  {
    (covering ==> CoveringRun(Initial(cfg), events)) && (watch.NoRead? || FreshRun(Initial(cfg), events, watch))
  }

  /** The histories of any two moments of a run, and what the whole run emitted. */
  lemma Moments(cfg: Configuration, events: seq<Event>, covering: bool, watch: Watch, i: nat, j: nat)
    returns (p: Past, q: Past, end: Past)
    requires ClusterRun(cfg, events) && i <= j <= |events| && Promised(cfg, events, covering, watch)
    ensures SystemInv(At(cfg, events, i), p) && SystemInv(At(cfg, events, j), q)
    ensures PastGrows(p, q) && PastGrows(q, end) && PastGrows(p, end)
    ensures p.h.covering == end.h.covering == covering && p.watch == watch
    ensures EmittedOk(end, Outputs(cfg, events))
    ensures SystemInv(At(cfg, events, |events|), end)
  {
    hide SystemInv, PastGrows, Lasting, ValidRun, Run, Emitted, Initial, CoveringRun, FreshRun;
    var start, dawn := Initial(cfg), Dawn(cfg, covering, watch);
    InitialInv(cfg, covering, watch);
    RunSplit(start, events, i);
    RunSplit(start, events, j);
    var mid := events[..j];
    RunSplit(start, mid, i);
    assert mid[..i] == events[..i];
    if !watch.NoRead? {
      FreshSplit(start, events, j, watch);
      FreshSplit(start, mid, i, watch);
    }
    p := RunSafe(start, dawn, events[..i]);
    SamePromises(dawn, p);
    var a := At(cfg, events, i);
    q := RunSafe(a, p, mid[i..]);
    SamePromises(p, q);
    end := RunSafe(At(cfg, events, j), q, events[j..]);
    SamePromises(q, end);
    PastGrowsThen(p, q, end);
    EmittedExtends(p, end, Emitted(start, events[..i]));
    EmittedExtends(q, end, Emitted(a, mid[i..]));
    EmittedParts(end, Emitted(start, events[..i]), Emitted(a, mid[i..]), Emitted(At(cfg, events, j), events[j..]));
    assert events[..|events|] == events;
  }

  lemma EmittedParts(past: Past, a: set<(NodeId, Action)>, b: set<(NodeId, Action)>, c: set<(NodeId, Action)>)
    requires EmittedOk(past, a) && EmittedOk(past, b) && EmittedOk(past, c)
    ensures EmittedOk(past, a + b + c)
  {
    hide Lasting;
  }

  // -------------------------------------------------------------------- theorems

  /** State machine safety: while no delivery overcommits, no index is ever applied
      with two different entries. */
  lemma StateMachineSafety(cfg: Configuration, events: seq<Event>, a: NodeId, b: NodeId, x: LogEntry, y: LogEntry)
    requires ClusterRun(cfg, events) && CoveringRun(Initial(cfg), events)
    requires (a, Apply(x)) in Outputs(cfg, events) && (b, Apply(y)) in Outputs(cfg, events)
    requires x.index == y.index
    ensures x == y
  {
    hide SystemInv, Extends, ClusterRun, Outputs, At, CoveringRun, FreshRun, Initial;
    var _, _, end := Moments(cfg, events, true, NoRead, 0, 0);
    assert Lasting(end, a, Apply(x)) && Lasting(end, b, Apply(y));
    AppliedChosen(end, a, x);
    AppliedChosen(end, b, y);
  }

  lemma AppliedChosen(past: Past, n: NodeId, e: LogEntry)
    requires past.h.covering && Lasting(past, n, Apply(e))
    ensures 1 <= e.index <= |past.h.chosen| && past.h.chosen[e.index - 1] == e
  {
  }

  /** Election safety: one leader a term, over the whole run. */
  lemma ElectionSafety(cfg: Configuration, events: seq<Event>, a: NodeId, b: NodeId, t: nat)
    requires ClusterRun(cfg, events)
    requires (a, RoleChanged(Leader, t)) in Outputs(cfg, events) && (b, RoleChanged(Leader, t)) in Outputs(cfg, events)
    ensures a == b
  {
    hide SystemInv, PastGrows, ClusterRun, Outputs, At, CoveringRun, FreshRun, Initial;
    var _, _, end := Moments(cfg, events, false, NoRead, 0, 0);
    assert Lasting(end, a, RoleChanged(Leader, t)) && Lasting(end, b, RoleChanged(Leader, t));
  }

  /** Nodes leading at any two moments of a run lead different terms, or are one node. */
  lemma OneLeaderPerTerm(cfg: Configuration, events: seq<Event>, i: nat, j: nat, a: NodeId, b: NodeId)
    requires ClusterRun(cfg, events) && i <= j <= |events|
    requires a in At(cfg, events, i).nodes && b in At(cfg, events, j).nodes
    requires At(cfg, events, i).nodes[a].role == Leader && At(cfg, events, j).nodes[b].role == Leader
    requires At(cfg, events, i).nodes[a].Term() == At(cfg, events, j).nodes[b].Term()
    ensures a == b
  {
    hide SystemInv, ClusterRun, At, Describes, NodeOk, CoveringRun, FreshRun, Initial;
    var p, q, _ := Moments(cfg, events, false, NoRead, i, j);
    LeaderFacts(At(cfg, events, i), p, a);
    LeaderFacts(At(cfg, events, j), q, b);
    assert SameLeader(p.h, q.h, At(cfg, events, i).nodes[a].Term());
  }

  /** The retained entries are the full log's entries. */
  lemma EntryInFull(node: Node, full: Log, k: nat)
    requires Describes(full, node) && node.log.Entry(k).Some?
    ensures node.log.baseIndex < k <= |full| && node.log.Entry(k).value == full[k - 1]
  {
  }

  /** Log matching, through truncation, batching and compaction. */
  lemma LogMatchingHolds(cfg: Configuration, events: seq<Event>, i: nat, a: NodeId, b: NodeId, index: nat, k: nat)
    requires ClusterRun(cfg, events) && i <= |events|
    requires a in At(cfg, events, i).nodes && b in At(cfg, events, i).nodes
    requires var x, y := At(cfg, events, i).nodes[a].log, At(cfg, events, i).nodes[b].log;
             && x.Term(index).Some? && x.Term(index) == y.Term(index)
             && 0 < k <= index && x.Entry(k).Some? && y.Entry(k).Some?
    ensures var x, y := At(cfg, events, i).nodes[a].log, At(cfg, events, i).nodes[b].log;
            x.Entry(k) == y.Entry(k)
  {
    hide SystemInv, ClusterRun, At, CoveringRun, FreshRun, PastGrows, EmittedOk, Outputs, Initial, LogView.Term,
         LogView.Entry;
    var p, _, _ := Moments(cfg, events, false, NoRead, i, i);
    MatchingHere(At(cfg, events, i), p, a, b, index, k);
  }

  lemma MatchingHere(sys: System, p: Past, a: NodeId, b: NodeId, index: nat, k: nat)
    requires a in sys.nodes && b in sys.nodes
    requires var x, y := sys.nodes[a].log, sys.nodes[b].log;
             && x.Term(index).Some? && x.Term(index) == y.Term(index)
             && 0 < k <= index && x.Entry(k).Some? && y.Entry(k).Some?
    requires SystemInv(sys, p)
    ensures sys.nodes[a].log.Entry(k) == sys.nodes[b].log.Entry(k)
  {
    hide SystemInv, Describes, NodeOk, LogInv, FullLog, LogView.Term, LogView.Entry, Inv;
    EntriesShape(sys, p, a);
    EntriesShape(sys, p, b);
    var x, y := FullLog(sys.nodes[a].log, p.h.logs), FullLog(sys.nodes[b].log, p.h.logs);
    TermLookup(sys.nodes[a], x, index);
    TermLookup(sys.nodes[b], y, index);
    LogMatching(x, y, p.h, index - 1);
    EntryInFull(sys.nodes[a], x, k);
    EntryInFull(sys.nodes[b], y, k);
  }

  /** The later node's log holds what the earlier node had committed. */
  predicate Keeps(before: Node, after: Node, k: nat) {
    && k <= after.log.LastIndex()
    && (before.log.Entry(k).Some? && k > after.log.baseIndex ==> after.log.Entry(k) == before.log.Entry(k))
  }

  /** The same of the full logs, compacted entries and all, as the histories of the two
      moments record them. */
  ghost predicate KeepsAll(before: System, p: Past, m: NodeId, after: System, q: Past, n: NodeId)
    requires m in before.nodes && n in after.nodes
  {
    && SystemInv(before, p) && SystemInv(after, q) && PastGrows(p, q)
    && Agree(FullLog(before.nodes[m].log, p.h.logs), FullLog(after.nodes[n].log, q.h.logs),
             before.nodes[m].hardState.commitIndex)
  }

  /** Leader completeness: once a node's commit index has reached an entry of its own
      term, what it has committed is in the log of every leader of the same or a later
      term from then on. */
  lemma LeaderCompletenessHolds(cfg: Configuration, events: seq<Event>, i: nat, j: nat, m: NodeId, n: NodeId)
    returns (p: Past, q: Past)
    requires ClusterRun(cfg, events) && i <= j <= |events|
    requires m in At(cfg, events, i).nodes && n in At(cfg, events, j).nodes
             && At(cfg, events, j).nodes[n].role == Leader
    requires At(cfg, events, i).nodes[m].Term() <= At(cfg, events, j).nodes[n].Term()
    requires Current(At(cfg, events, i).nodes[m])
    ensures KeepsAll(At(cfg, events, i), p, m, At(cfg, events, j), q, n)
    ensures forall k :: 0 < k <= At(cfg, events, i).nodes[m].hardState.commitIndex ==>
              Keeps(At(cfg, events, i).nodes[m], At(cfg, events, j).nodes[n], k)
  {
    hide SystemInv, ClusterRun, At, FullLog, Current, Committed, PastGrows, Keeps, CoveringRun, FreshRun, Initial;
    var end;
    p, q, end := Moments(cfg, events, false, NoRead, i, j);
    CurrentCommitted(At(cfg, events, i), p, m);
    KeptInLeader(At(cfg, events, i), p, m, At(cfg, events, j), q, n);
  }

  /** While no delivery overcommits, the same holds of what any node has committed. */
  lemma CommittedStaysCommitted(cfg: Configuration, events: seq<Event>, i: nat, j: nat, m: NodeId, n: NodeId)
    returns (p: Past, q: Past)
    requires ClusterRun(cfg, events) && CoveringRun(Initial(cfg), events) && i <= j <= |events|
    requires m in At(cfg, events, i).nodes && n in At(cfg, events, j).nodes
             && At(cfg, events, j).nodes[n].role == Leader
    requires At(cfg, events, i).nodes[m].Term() <= At(cfg, events, j).nodes[n].Term()
    ensures KeepsAll(At(cfg, events, i), p, m, At(cfg, events, j), q, n)
    ensures forall k :: 0 < k <= At(cfg, events, i).nodes[m].hardState.commitIndex ==>
              Keeps(At(cfg, events, i).nodes[m], At(cfg, events, j).nodes[n], k)
  {
    hide SystemInv, ClusterRun, At, FullLog, Committed, PastGrows, Keeps, CoveringRun, FreshRun, Initial, Inv;
    var end;
    p, q, end := Moments(cfg, events, true, NoRead, i, j);
    AbsInv(At(cfg, events, i), p);
    CommittedPeer(Abs(At(cfg, events, i), p.h), m);
    KeptInLeader(At(cfg, events, i), p, m, At(cfg, events, j), q, n);
  }

  /** The node's commit index has reached an entry of the term it is in. */
  predicate Current(node: Node) {
    node.hardState.commitIndex > 0 && node.log.Term(node.hardState.commitIndex) == Some(node.Term())
  }

  /** What a current node has committed is a commit of the cluster. */
  lemma CurrentCommitted(sys: System, past: Past, n: NodeId)
    requires n in sys.nodes && Current(sys.nodes[n])
    requires SystemInv(sys, past)
    ensures var node := sys.nodes[n];
            && node.hardState.commitIndex <= |past.h.chosen|
            && Committed(past.h, FullLog(node.log, past.h.logs), node.hardState.commitIndex, node.Term())
  {
    hide SystemInv, Inv, FullLog, LogView.Term;
    AbsInv(sys, past);
    CommitTerm(sys, past, n);
    OwnCommit(Abs(sys, past.h), n);
  }

  lemma OwnCommit(s: State, n: NodeId)
    requires Inv(s) && n in s.peers
    requires var p := s.peers[n]; 0 < p.commit <= |p.log| && TermAt(p.log, p.commit) == p.term
    ensures var p := s.peers[n]; p.commit <= |s.h.chosen| && Committed(s.h, p.log, p.commit, p.term)
  {
    var p := s.peers[n];
    assert PeerInv(s, n) && ReachInv(s, n) && MatchAt(p.log, s.h, p.commit - 1) && LeaderInv(s, p.term);
    var r, k := Commit(p.term, s.h.reach[p.term]), (s.h.leaders[p.term], p.term);
    assert CampaignInv(s, k) && |s.h.campaigns[k]| < p.commit;
    assert CommitInv(s, r);
    assert CommittedBy(s.h, p.log, p.commit, p.term, r);
  }

  lemma KeptInLeader(before: System, p: Past, m: NodeId, after: System, q: Past, n: NodeId)
    requires m in before.nodes && n in after.nodes && after.nodes[n].role == Leader
    requires before.nodes[m].Term() <= after.nodes[n].Term()
    requires SystemInv(before, p) && SystemInv(after, q) && PastGrows(p, q)
    requires Committed(p.h, FullLog(before.nodes[m].log, p.h.logs), before.nodes[m].hardState.commitIndex,
                       before.nodes[m].Term())
    ensures KeepsAll(before, p, m, after, q, n)
    ensures forall k :: 0 < k <= before.nodes[m].hardState.commitIndex ==> Keeps(before.nodes[m], after.nodes[n], k)
  {
    hide SystemInv, Describes, NodeOk, LogInv, FullLog, LogView.LastIndex, LogView.Entry, Inv, Leads, Committed,
         PastGrows;
    EntriesShape(before, p, m);
    LeaderFacts(after, q, n);
    var x, y := FullLog(before.nodes[m].log, p.h.logs), FullLog(after.nodes[n].log, q.h.logs);
    CommittedStays(before, p, m, after, q, n);
    FullLength(after.nodes[n], y);
    forall k | 0 < k <= before.nodes[m].hardState.commitIndex ensures Keeps(before.nodes[m], after.nodes[n], k) {
      if before.nodes[m].log.Entry(k).Some? {
        EntryInFull(before.nodes[m], x, k);
      }
      if k > after.nodes[n].log.baseIndex {
        EntryOfFull(after.nodes[n], y, k);
      }
    }
  }

  lemma EntryOfFull(node: Node, full: Log, k: nat)
    requires Describes(full, node) && node.log.baseIndex < k <= |full|
    ensures node.log.Entry(k) == Some(full[k - 1])
  {
  }

  lemma CommittedStays(before: System, p: Past, m: NodeId, after: System, q: Past, n: NodeId)
    requires m in before.nodes && n in after.nodes && after.nodes[n].role == Leader
    requires before.nodes[m].Term() <= after.nodes[n].Term()
    requires SystemInv(after, q) && PastGrows(p, q)
    requires Committed(p.h, FullLog(before.nodes[m].log, p.h.logs), before.nodes[m].hardState.commitIndex,
                       before.nodes[m].Term())
    ensures Agree(FullLog(before.nodes[m].log, p.h.logs), FullLog(after.nodes[n].log, q.h.logs),
                  before.nodes[m].hardState.commitIndex)
  {
    hide SystemInv, Describes, NodeOk, FullLog, Inv, Committed, Extends;
    LeaderFacts(after, q, n);
    AbsInv(after, q);
    var x, c, t := FullLog(before.nodes[m].log, p.h.logs), before.nodes[m].hardState.commitIndex,
        before.nodes[m].Term();
    CommittedExtends(p.h, q.h, x, c, t, t);
    CommittedInLeader(Abs(after, q.h), x, c, t, after.nodes[n].Term());
  }

  lemma CommittedPeer(s: State, n: NodeId)
    requires Inv(s) && s.h.covering && n in s.peers
    ensures Committed(s.h, s.peers[n].log, s.peers[n].commit, s.peers[n].term)
    ensures s.peers[n].commit <= |s.h.chosen|
  {
    assert PeerCommitInv(s, n);
    PeerCommitChosen(s, n);
  }

  /** What a current node has committed, or while no delivery overcommits any node, is
      chosen. */
  lemma CommitsAreChosen(sys: System, past: Past, m: NodeId)
    requires m in sys.nodes && (Current(sys.nodes[m]) || past.h.covering)
    requires SystemInv(sys, past)
    ensures sys.nodes[m].hardState.commitIndex <= |past.h.chosen|
    ensures Agree(FullLog(sys.nodes[m].log, past.h.logs), past.h.chosen, sys.nodes[m].hardState.commitIndex)
  {
    hide SystemInv, FullLog, Inv, Current, Committed, Agree;
    AbsInv(sys, past);
    if Current(sys.nodes[m]) {
      CurrentCommitted(sys, past, m);
    } else {
      CommittedPeer(Abs(sys, past.h), m);
    }
    var node := sys.nodes[m];
    CommittedIsChosen(Abs(sys, past.h), FullLog(node.log, past.h.logs), node.hardState.commitIndex, node.Term());
  }

  /** Any two nodes at any two moments agree on what both have committed, if each has
      reached an entry of its own term or no delivery overcommits. */
  lemma CommittedAgree(cfg: Configuration, events: seq<Event>, i: nat, j: nat, m: NodeId, n: NodeId, k: nat)
    requires ClusterRun(cfg, events) && i <= j <= |events|
    requires m in At(cfg, events, i).nodes && n in At(cfg, events, j).nodes
    requires CoveringRun(Initial(cfg), events)
             || (Current(At(cfg, events, i).nodes[m]) && Current(At(cfg, events, j).nodes[n]))
    requires var a, b := At(cfg, events, i).nodes[m], At(cfg, events, j).nodes[n];
             && 0 < k <= a.hardState.commitIndex && k <= b.hardState.commitIndex
             && a.log.Entry(k).Some? && b.log.Entry(k).Some?
    ensures At(cfg, events, i).nodes[m].log.Entry(k) == At(cfg, events, j).nodes[n].log.Entry(k)
  {
    hide SystemInv, ValidRun, At, FullLog, Current, Committed, CoveringRun, FreshRun, Initial, Inv, Describes,
         NodeOk, LogInv, LogView.Entry, EmittedOk, Outputs;
    var p, q, _ := Moments(cfg, events, CoveringRun(Initial(cfg), events), NoRead, i, j);
    SamePromises(p, q);
    var before, after := At(cfg, events, i), At(cfg, events, j);
    CommitsAreChosen(before, p, m);
    CommitsAreChosen(after, q, n);
    EntriesShape(before, p, m);
    EntriesShape(after, q, n);
    EntryInFull(before.nodes[m], FullLog(before.nodes[m].log, p.h.logs), k);
    EntryInFull(after.nodes[n], FullLog(after.nodes[n].log, q.h.logs), k);
  }

  /** The one fatal branch any run can reach is a leader's batch that contradicts a
      follower's committed entries; while no delivery overcommits, not even that. */
  lemma NeverFatal(cfg: Configuration, events: seq<Event>, n: NodeId, reason: FatalReason)
    requires ClusterRun(cfg, events) && (n, Fatal(reason)) in Outputs(cfg, events)
    ensures reason.ReplacedCommitted? && !CoveringRun(Initial(cfg), events)
  {
    hide SystemInv, PastGrows, Outputs, At, CoveringRun, FreshRun, Initial, ValidRun;
    var _, _, end := Moments(cfg, events, CoveringRun(Initial(cfg), events), NoRead, 0, 0);
    assert Lasting(end, n, Fatal(reason));
  }

  /** Whatever snapshot a node holds, some node built it and its digest checks. */
  lemma SnapshotIntegrity(cfg: Configuration, events: seq<Event>, i: nat, n: NodeId)
    requires ClusterRun(cfg, events) && i <= |events|
    requires n in At(cfg, events, i).nodes && At(cfg, events, i).nodes[n].snapshot.Some?
    ensures var s := At(cfg, events, i).nodes[n].snapshot.value;
            s in At(cfg, events, i).built && s.Validate()
              && s.metadata.lastIncludedIndex <= At(cfg, events, i).nodes[n].appliedIndex
  {
    hide SystemInv, ClusterRun, At, Inv, Describes, LogInv, CoveringRun, FreshRun, Initial;
    var p, _, _ := Moments(cfg, events, false, NoRead, i, i);
    EntriesShape(At(cfg, events, i), p, n);
  }

  /** Durable refinement: the store accepts every mutation a step emits, every
      executed prefix restarts, and the whole list puts the node's memory on disk. */
  lemma DurableRefinement(cfg: Configuration, events: seq<Event>, e: Event, k: nat)
    requires ClusterRun(cfg, events) && Allowed(At(cfg, events, |events|), e)
    requires k <= |Step(At(cfg, events, |events|).nodes[e.node], e.input).actions|
    ensures var node := At(cfg, events, |events|).nodes[e.node];
            var o := Step(node, e.input);
            && StableStore.ExecuteAll(node.Stable(), o.actions) == Ok(o.node.Stable())
            && StableStore.ExecuteAll(node.Stable(), o.actions[..k]).Ok?
            && Recover(e.node, cfg, StableStore.ExecuteAll(node.Stable(), o.actions[..k]).value).Ok?
  {
    hide SystemInv, PastExtends, ActionsOk, ClusterRun, Step, Ready, Recover, StableStore.ExecuteAll, CoveringRun,
         FreshRun, PastGrows, OfferedPast;
    var p, _, _ := Moments(cfg, events, false, NoRead, |events|, |events|);
    var sys := At(cfg, events, |events|);
    RunConfiguration(cfg, events);
    OfferedInv(sys, p, e);
    AllowedReady(sys, p, e);
    var t, g := Offered(sys, e), OfferedPast(sys, p, e);
    var q := StepSafe(t, g, e.node, e.input);
    assert CrashSafe(t, g, e.node, Step(sys.nodes[e.node], e.input).actions, k);
  }

  lemma RunConfiguration(cfg: Configuration, events: seq<Event>)
    requires ClusterRun(cfg, events)
    ensures At(cfg, events, |events|).cfg == cfg
  {
    hide Allowed, Executed, Step;
    assert events[..|events|] == events;
    RunKeepsConfiguration(Initial(cfg), events);
  }

  lemma {:induction false} RunKeepsConfiguration(sys: System, events: seq<Event>)
    requires ValidRun(sys, events)
    ensures Run(sys, events).cfg == sys.cfg
    decreases |events|
  {
    if events != [] {
      RunKeepsConfiguration(Next(sys, events[0]), events[1..]);
    }
  }

  // ------------------------------------------------------------------------ reads

  predicate TakenAt(cfg: Configuration, events: seq<Event>, i: nat, n: NodeId, context: Bytes)
    requires ClusterRun(cfg, events)
  {
    && i < |events| && events[i].node == n && events[i].input == ReadIndex(context)
    && n in At(cfg, events, i).nodes && Accepts(At(cfg, events, i).nodes[n], context)
  }

  /** Only accepting a read adds to what was asked, and nothing is taken off. */
  lemma {:induction false} AskedGrows(sys: System, events: seq<Event>)
    requires ValidRun(sys, events)
    ensures sys.asked <= Run(sys, events).asked
    decreases |events|
  {
    hide Accepts, Step, Executed, Reboot;
    if events != [] {
      AskedGrows(Next(sys, events[0]), events[1..]);
    }
  }

  lemma {:induction false} AskedWasTaken(sys: System, events: seq<Event>, a: nat) returns (i: nat)
    requires ValidRun(sys, events) && |sys.asked| <= a < |Run(sys, events).asked|
    ensures i < |events| && ValidRun(sys, events[..i])
    ensures var t := Run(sys, events[..i]);
            var n := events[i].node;
            && |t.asked| == a && events[i].input.ReadIndex?
            && n in t.nodes && Accepts(t.nodes[n], events[i].input.context)
            && Run(sys, events).asked[a] == (n, events[i].input.context)
    decreases |events|
  {
    hide Accepts, Step, Executed, Reboot;
    var t := Next(sys, events[0]);
    if a < |t.asked| {
      i := 0;
      assert events[..0] == [];
      AskedGrows(t, events[1..]);
    } else {
      var j := AskedWasTaken(t, events[1..], a);
      i := j + 1;
      assert events[..i][1..] == events[1..][..j];
    }
  }

  /** One more event. */
  lemma AtNext(cfg: Configuration, events: seq<Event>, j: nat)
    requires ClusterRun(cfg, events) && j < |events|
    ensures Allowed(At(cfg, events, j), events[j]) && At(cfg, events, j + 1) == Next(At(cfg, events, j), events[j])
  {
    hide Allowed, Next, Initial;
    var start := Initial(cfg);
    RunSplit(start, events, j);
    RunSplit(start, events, j + 1);
    RunSplit(start, events[..j + 1], j);
    assert events[..j + 1][..j] == events[..j] && events[..j + 1][j..] == [events[j]];
    assert events[j..][0] == events[j] && [events[j]][1..] == [];
  }

  lemma AskedPrefix(cfg: Configuration, events: seq<Event>, i: nat, j: nat)
    requires ClusterRun(cfg, events) && i <= j <= |events|
    ensures At(cfg, events, i).asked <= At(cfg, events, j).asked
  {
    hide Initial, ValidRun, Run;
    var start := Initial(cfg);
    RunSplit(start, events, j);
    RunSplit(start, events[..j], i);
    assert events[..j][..i] == events[..i];
    AskedGrows(Run(start, events[..i]), events[..j][i..]);
  }

  lemma TakenAsked(cfg: Configuration, events: seq<Event>, i: nat, n: NodeId, context: Bytes)
    requires ClusterRun(cfg, events) && TakenAt(cfg, events, i, n, context)
    ensures At(cfg, events, i + 1).asked == At(cfg, events, i).asked + [(n, context)]
  {
    hide Accepts, Executed, Reboot, Initial, ValidRun, Run, Step;
    AtNext(cfg, events, i);
  }

  /** Whatever was asked by moment `j` was taken on at an earlier one. */
  lemma TakenBy(cfg: Configuration, events: seq<Event>, j: nat, a: nat) returns (i: nat)
    requires ClusterRun(cfg, events) && j <= |events| && a < |At(cfg, events, j).asked|
    ensures i < j && |At(cfg, events, i).asked| == a
    ensures var k := At(cfg, events, j).asked[a]; TakenAt(cfg, events, i, k.0, k.1)
  {
    hide ValidRun, Run, Accepts, Initial;
    RunSplit(Initial(cfg), events, j);
    EmptyAtFirst(cfg);
    i := AskedWasTaken(Initial(cfg), events[..j], a);
    assert events[..j][..i] == events[..i] && events[..j][i] == events[i];
  }

  lemma EmptyAtFirst(cfg: Configuration)
    ensures Initial(cfg).asked == []
  {
  }

  /** A node that never took a context on before has no answer to it under way. */
  lemma UnusedContextIsFresh(cfg: Configuration, events: seq<Event>, i: nat)
    requires ClusterRun(cfg, events) && i < |events| && events[i].input.ReadIndex?
    requires forall k :: 0 <= k < i ==> !TakenAt(cfg, events, k, events[i].node, events[i].input.context)
    ensures Fresh(At(cfg, events, i), events[i])
  {
    hide SystemInv, Initial, ValidRun, Run, FreshRun, CoveringRun, PastGrows, Accepts, EmittedOk, Echoed, Emitted,
         Outputs, At, TakenAt;
    var p, _, _ := Moments(cfg, events, false, NoRead, i, i);
    var n, context, sys := events[i].node, events[i].input.context, At(cfg, events, i);
    if n in sys.nodes && Echoed(sys, n, sys.nodes[n].Term(), context) {
      var r := EchoWasAsked(sys, p, n, sys.nodes[n].Term(), context);
      var k := TakenBy(cfg, events, i, r.at);
      assert false;
    }
  }

  lemma EchoWasAsked(sys: System, past: Past, n: NodeId, term: nat, context: Bytes) returns (r: Reading)
    requires SystemInv(sys, past) && Echoed(sys, n, term, context)
    ensures r.at < |sys.asked| && sys.asked[r.at] == (n, context)
  {
    hide Inv, NodeOk;
    var p :| p in sys.net && Echo(p, n, term, context);
    assert PacketOk(sys.cfg, sys.built, past, p);
    r :| r in past.readings && Records(r, n, context);
    assert ReadOk(sys, past, r);
  }

  /** The read was emitted by event `j`. */
  predicate ReadAt(cfg: Configuration, events: seq<Event>, j: nat, n: NodeId, context: Bytes, index: nat)
    requires ClusterRun(cfg, events)
  {
    && j < |events| && events[j].node == n && Allowed(At(cfg, events, j), events[j])
    && ReadReady(context, index) in Executed(At(cfg, events, j), events[j])
  }

  /** The history of an earlier moment, the one after the emission, and the recorded read. */
  lemma Emission(cfg: Configuration, events: seq<Event>, covering: bool, l: nat, j: nat, n: NodeId, context: Bytes,
                 index: nat)
    returns (p: Past, q: Past, r: Reading)
    requires ClusterRun(cfg, events) && Promised(cfg, events, covering, OneRead(n, context))
    requires l <= j && ReadAt(cfg, events, j, n, context, index)
    ensures SystemInv(At(cfg, events, l), p) && p.h.covering == covering
    ensures SystemInv(At(cfg, events, j + 1), q) && PastGrows(p, q)
    ensures Latest(q, r) && Records(r, n, context) && r.floor <= index
  {
    hide SystemInv, Extends, Allowed, Next, Executed, ValidRun, Run, Initial, At, Latest, CoveringRun, FreshRun,
         Covering, Fresh;
    var g, end;
    p, g, end := Moments(cfg, events, covering, OneRead(n, context), l, j);
    KeptAt(cfg, events, covering, j, n, context);
    SamePromises(p, g);
    AtNext(cfg, events, j);
    q := NextSafe(At(cfg, events, j), g, events[j]);
    PastGrowsThen(p, g, q);
    SamePromises(g, q);
    assert ActionOk(q, n, ReadReady(context, index));
    r :| Latest(q, r) && Records(r, n, context) && r.floor <= index;
  }

  lemma KeptAt(cfg: Configuration, events: seq<Event>, covering: bool, j: nat, n: NodeId, context: Bytes)
    requires ClusterRun(cfg, events) && Promised(cfg, events, covering, OneRead(n, context)) && j < |events|
    ensures covering ==> Covering(At(cfg, events, j), events[j])
    ensures Takes(events[j], OneRead(n, context)) ==> Fresh(At(cfg, events, j), events[j])
  {
    hide Allowed, Next, Initial, Covering, Fresh;
    RunSplit(Initial(cfg), events, j);
    FreshSplit(Initial(cfg), events, j, OneRead(n, context));
    assert events[j..][0] == events[j];
  }

  lemma ReadingFacts(sys: System, past: Past, r: Reading)
    requires SystemInv(sys, past)
    ensures Complete(sys.asked, past.readings)
    ensures r in past.readings ==> r.at < |sys.asked| && sys.asked[r.at] == (r.node, r.context)
  {
    hide Inv, NodeOk, PacketOk, Complete;
    assert ReadOk(sys, past, r);
  }

  /** A read taken on by moment `i` has a record, so the latest is no older. */
  lemma LatestIsLater(cfg: Configuration, events: seq<Event>, i: nat, j: nat, n: NodeId, context: Bytes, q: Past,
                      r: Reading)
    requires ClusterRun(cfg, events) && i <= j < |events| && TakenAt(cfg, events, i, n, context)
    requires SystemInv(At(cfg, events, j + 1), q) && Latest(q, r) && Records(r, n, context)
    ensures r.at >= |At(cfg, events, i).asked|
  {
    hide SystemInv, Initial, ValidRun, Run, At;
    TakenAsked(cfg, events, i, n, context);
    AskedPrefix(cfg, events, i + 1, j + 1);
    var a, asked := |At(cfg, events, i).asked|, At(cfg, events, j + 1).asked;
    assert asked[a] == (n, context);
    ReadingFacts(At(cfg, events, j + 1), q, r);
    assert Noted(asked, q.readings, a);
    var o :| o in q.readings && o.at == a && Records(o, n, context);
  }

  /** The acceptance behind an emitted read. */
  lemma LastTaken(cfg: Configuration, events: seq<Event>, j: nat, n: NodeId, context: Bytes, index: nat)
    returns (i: nat)
    requires ClusterRun(cfg, events) && FreshRun(Initial(cfg), events, OneRead(n, context))
             && ReadAt(cfg, events, j, n, context, index)
    ensures i <= j && TakenAt(cfg, events, i, n, context)
    ensures forall k :: i < k <= j ==> !TakenAt(cfg, events, k, n, context)
  {
    hide SystemInv, Initial, ValidRun, Run, Latest, FreshRun, CoveringRun, PastGrows, ReadAt, Accepts, At;
    assert j < |events| by { ReadInside(cfg, events, j, n, context, index); }
    var _, q, r := Emission(cfg, events, false, 0, j, n, context, index);
    LatestIn(q, r);
    ReadingFacts(At(cfg, events, j + 1), q, r);
    i := TakenBy(cfg, events, j + 1, r.at);
    forall k | i < k <= j ensures !TakenAt(cfg, events, k, n, context) {
      TakenAsked(cfg, events, i, n, context);
      AskedPrefix(cfg, events, i + 1, k);
      if TakenAt(cfg, events, k, n, context) {
        LatestIsLater(cfg, events, k, j, n, context, q, r);
        assert false;
      }
    }
  }

  lemma LatestIn(past: Past, r: Reading)
    requires Latest(past, r)
    ensures r in past.readings
  {
  }

  /** A node that has committed in its own term, or, while no delivery overcommits, any
      node: what it has committed at moment `l` is at most `index`. */
  predicate CommittedWithin(cfg: Configuration, events: seq<Event>, l: nat, m: NodeId, index: nat)
    requires ClusterRun(cfg, events) && l <= |events|
  {
    m in At(cfg, events, l).nodes && (Current(At(cfg, events, l).nodes[m]) || CoveringRun(Initial(cfg), events)) ==>
      At(cfg, events, l).nodes[m].hardState.commitIndex <= index
  }

  lemma BarrierAt(cfg: Configuration, events: seq<Event>, l: nat, i: nat, j: nat, n: NodeId, context: Bytes,
                  index: nat, m: NodeId)
    requires ClusterRun(cfg, events) && FreshRun(Initial(cfg), events, OneRead(n, context))
             && ReadAt(cfg, events, j, n, context, index)
    requires l <= i <= j && TakenAt(cfg, events, i, n, context)
    ensures CommittedWithin(cfg, events, l, m, index)
  {
    hide SystemInv, Initial, ValidRun, Run, Latest, FreshRun, CoveringRun, Extends, Current, TakenAt, ReadAt, At;
    var covering := CoveringRun(Initial(cfg), events);
    assert j < |events| by { ReadInside(cfg, events, j, n, context, index); }
    var p, q, r := Emission(cfg, events, covering, l, j, n, context, index);
    LatestIsLater(cfg, events, i, j, n, context, q, r);
    LatestIn(q, r);
    AskedPrefix(cfg, events, l, i);
    ReadingFacts(At(cfg, events, l), p, r);
    if m in At(cfg, events, l).nodes && (Current(At(cfg, events, l).nodes[m]) || covering) {
      CommitsAreChosen(At(cfg, events, l), p, m);
    }
  }

  lemma ReadInside(cfg: Configuration, events: seq<Event>, j: nat, n: NodeId, context: Bytes, index: nat)
    requires ClusterRun(cfg, events) && ReadAt(cfg, events, j, n, context, index)
    ensures j < |events|
  {
  }

  /** ReadIndex barrier: a completed read was taken on by its node, and its index is at
      least everything that had been committed when the node last took it on. */
  lemma ReadBarrier(cfg: Configuration, events: seq<Event>, j: nat, n: NodeId, context: Bytes, index: nat)
    returns (i: nat)
    requires ClusterRun(cfg, events) && FreshRun(Initial(cfg), events, OneRead(n, context))
             && ReadAt(cfg, events, j, n, context, index)
    ensures i <= j && TakenAt(cfg, events, i, n, context)
    ensures forall k :: i < k <= j ==> !TakenAt(cfg, events, k, n, context)
    ensures forall l, m {:trigger CommittedWithin(cfg, events, l, m, index)} ::
              0 <= l <= i ==> CommittedWithin(cfg, events, l, m, index)
  {
    hide CoveringRun, FreshRun, CommittedWithin, ValidRun, Run, Initial, ReadAt, At;
    i := LastTaken(cfg, events, j, n, context, index);
    forall l, m | 0 <= l <= i ensures CommittedWithin(cfg, events, l, m, index) {
      BarrierAt(cfg, events, l, i, j, n, context, index, m);
    }
  }
}
