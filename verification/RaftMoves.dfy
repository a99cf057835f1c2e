/** Executing actions one at a time: what it takes for every prefix of an action
    list, followed by a crash, to keep the cluster invariant. */
module RaftMoves {
  import opened Wrappers
  import opened Ordering
  import opened RaftTypes
  import opened RaftLog
  import opened RaftNode
  import opened RaftSafety
  import opened RaftCluster
  import StableStore

  // ------------------------------------------------------------ monotonicity

  lemma ExtendsTransitive(a: Past, b: Past, c: Past)
    requires Extends(a.h, b.h) && Extends(b.h, c.h)
    ensures Extends(a.h, c.h)
  {
    forall k ensures SameCampaign(a.h, c.h, k) {
      assert SameCampaign(a.h, b.h, k) && SameCampaign(b.h, c.h, k);
    }
    forall t ensures SameLeader(a.h, c.h, t) && Grows(a.h, c.h, t) && Raises(a.h, c.h, t) {
      assert SameLeader(a.h, b.h, t) && SameLeader(b.h, c.h, t);
      assert Grows(a.h, b.h, t) && Grows(b.h, c.h, t);
      assert Raises(a.h, b.h, t) && Raises(b.h, c.h, t);
    }
  }

  lemma PastExtendsTransitive(a: Past, b: Past, c: Past)
    requires PastExtends(a, b) && PastExtends(b, c)
    ensures PastExtends(a, c)
  {
    hide Extends;
    ExtendsTransitive(a, b, c);
  }

  lemma PastExtendsReflexive(a: Past)
    ensures PastExtends(a, a)
  {
  }

  /** Leaders' logs only grow, so compacted prefixes stay what they were. */
  lemma FullLogExtends(log: LogView, h: History, g: History)
    requires BaseOk(log, h.logs) && Extends(h, g)
    ensures BaseOk(log, g.logs) && FullLog(log, h.logs) == FullLog(log, g.logs)
  {
    assert Grows(h, g, log.baseTerm);
    if log.baseIndex > 0 {
      assert h.logs[log.baseTerm][..log.baseIndex] == g.logs[log.baseTerm][..log.baseIndex];
    }
  }

  lemma HoldsExtends(h: History, g: History, v: NodeId, t: nat, i: nat)
    requires Holds(h, v, t, i) && Extends(h, g)
    ensures Holds(g, v, t, i)
  {
    assert Raises(h, g, t);
  }

  lemma NodeOkExtends(cfg: Configuration, built: set<PersistentSnapshot>, p: Past, q: Past, n: NodeId, node: Node)
    requires NodeOk(cfg, built, p, n, node) && PastExtends(p, q)
    ensures NodeOk(cfg, built, q, n, node)
  {
    if node.role == Candidate {
      assert Voters(p.h.votes, node.Term(), n) <= Voters(q.h.votes, node.Term(), n);
    }
    if node.role == Leader {
      forall v ensures ProgressOk(q, node, v) {
        assert ProgressOk(p, node, v);
        if v in node.progress && node.progress[v].matchIndex > 0 {
          HoldsExtends(p.h, q.h, v, node.Term(), node.progress[v].matchIndex);
        }
      }
    }
    FullLogExtends(node.log, p.h, q.h);
    forall c ensures PendingOk(q, node, c) {
      assert PendingOk(p, node, c);
      PendingOkSame(p, q, node, c);
    }
  }

  /** Pending reads only look at the recorded ones. */
  lemma PendingOkSame(p: Past, q: Past, node: Node, context: Bytes)
    requires PendingOk(p, node, context) && q.readings == p.readings && q.watch == p.watch
    ensures PendingOk(q, node, context)
  {
    if p.watch.Covers(node.id, context) && context in node.pendingReads {
      var r :| Latest(p, r) && Awaits(node, context, r);
      assert Latest(q, r);
    }
  }

  lemma PacketOkExtends(cfg: Configuration, built: set<PersistentSnapshot>, p: Past, q: Past, k: Packet)
    requires PacketOk(cfg, built, p, k) && PastExtends(p, q)
    ensures PacketOk(cfg, built, q, k)
  {
    match k.message
    case RequestVote(t, c, i, lt) =>
      assert SameCampaign(p.h, q.h, (c, t));
    case AppendEntries(t, _, _, _, _, commit, _) =>
      assert SameLeader(p.h, q.h, t) && Grows(p.h, q.h, t) && Raises(p.h, q.h, t);
      if p.h.covering {
        CommittedExtends(p.h, q.h, p.h.logs[t], commit, t, t);
        CommittedTransfer(q.h, p.h.logs[t], q.h.logs[t], commit, t);
      }
    case InstallSnapshot(t, _, d, _, _, _) =>
      assert SameLeader(p.h, q.h, t) && Grows(p.h, q.h, t) && Raises(p.h, q.h, t);
      if p.h.covering {
        CommittedExtends(p.h, q.h, p.h.logs[t], d.lastIncludedIndex, t, t);
        CommittedTransfer(q.h, p.h.logs[t], q.h.logs[t], d.lastIncludedIndex, t);
      }
    case InstallSnapshotResponse(t, accepted, _, done, i) =>
      if accepted && done {
        HoldsExtends(p.h, q.h, k.from, t, i);
      }
    case _ =>
  }

  lemma ActionsOkExtends(p: Past, q: Past, n: NodeId, actions: seq<Action>)
    requires ActionsOk(p, n, actions) && PastExtends(p, q)
    ensures ActionsOk(q, n, actions)
  {
    forall a | a in actions ensures ActionOk(q, n, a) {
      assert ActionOk(p, n, a);
      ActionOkExtends(p, q, n, a);
    }
  }

  lemma ActionOkExtends(p: Past, q: Past, n: NodeId, a: Action)
    requires ActionOk(p, n, a) && PastExtends(p, q)
    ensures ActionOk(q, n, a)
  {
    if a.RoleChanged? {
      assert SameLeader(p.h, q.h, a.term);
    } else if a.ReadReady? && p.watch.Covers(n, a.context) {
      var r :| Latest(p, r) && Records(r, n, a.context) && r.floor <= a.index;
      assert Latest(q, r);
    }
  }

  // ------------------------------------------------------------------- moving

  lemma AbsAfter(sys: System, past: Past, n: NodeId, node: Node, q: Past, actions: seq<Action>)
    requires SystemInv(sys, past) && n in sys.nodes && PastExtends(past, q)
    ensures Abs(After(sys, n, actions, node), q.h) == WithPeer(Abs(sys, past.h), n, PeerOf(node, q.h.logs), q.h)
  {
    hide Inv, PacketOk, ReadOk, PendingOk, ProgressOk, FullLog;
    var a, b := Abs(After(sys, n, actions, node), q.h), WithPeer(Abs(sys, past.h), n, PeerOf(node, q.h.logs), q.h);
    forall m | m in a.peers ensures m in b.peers && a.peers[m] == b.peers[m] {
      if m != n {
        assert NodeOk(sys.cfg, sys.built, past, m, sys.nodes[m]);
        FullLogExtends(sys.nodes[m].log, past.h, q.h);
      }
    }
    assert a.peers == b.peers;
  }

  ghost predicate PacketsOk(cfg: Configuration, built: set<PersistentSnapshot>, past: Past, n: NodeId,
                            actions: seq<Action>) {
    forall a {:trigger a in actions} :: a in actions && a.Send? ==>
                                          PacketOk(cfg, built, past, Packet(n, a.to, a.message))
  }

  lemma MoveNodes(sys: System, past: Past, n: NodeId, node: Node, q: Past, m: NodeId)
    requires SystemInv(sys, past) && n in sys.nodes && PastExtends(past, q)
    requires NodeOk(sys.cfg, sys.built, q, n, node)
    requires m in sys.nodes
    ensures NodeOk(sys.cfg, sys.built, q, m, sys.nodes[n := node][m])
  {
    if m != n {
      assert NodeOk(sys.cfg, sys.built, past, m, sys.nodes[m]);
      NodeOkExtends(sys.cfg, sys.built, past, q, m, sys.nodes[m]);
    }
  }

  lemma MovePackets(sys: System, past: Past, n: NodeId, q: Past, actions: seq<Action>, p: Packet)
    requires SystemInv(sys, past) && PastExtends(past, q)
    requires PacketsOk(sys.cfg, sys.built, q, n, actions)
    requires p in sys.net + Sends(n, actions)
    ensures PacketOk(sys.cfg, sys.built, q, p)
  {
    if p in sys.net {
      assert PacketOk(sys.cfg, sys.built, past, p);
      PacketOkExtends(sys.cfg, sys.built, past, q, p);
    } else {
      var a :| a in actions && a.Send? && p == Packet(n, a.to, a.message);
    }
  }

  lemma MoveReads(sys: System, past: Past, n: NodeId, node: Node, q: Past, actions: seq<Action>, r: Reading)
    requires n in sys.nodes && sys.nodes[n].Term() <= node.Term() && ReadOk(sys, past, r) && PastExtends(past, q)
    ensures ReadOk(After(sys, n, actions, node), q, r)
  {
  }

  /** Node `n` moves to `node` while sending what `actions` say. */
  lemma Move(sys: System, past: Past, n: NodeId, node: Node, q: Past, actions: seq<Action>)
    requires SystemInv(sys, past) && n in sys.nodes && PastExtends(past, q)
    requires sys.nodes[n].Term() <= node.Term()
    requires Inv(WithPeer(Abs(sys, past.h), n, PeerOf(node, q.h.logs), q.h))
    requires NodeOk(sys.cfg, sys.built, q, n, node)
    requires PacketsOk(sys.cfg, sys.built, q, n, actions)
    ensures SystemInv(After(sys, n, actions, node), q)
  {
    hide NodeOk, PacketOk, ReadOk, Extends, PacketsOk, Inv, Abs, PeerOf, WithPeer, Sends, Complete;
    var t := After(sys, n, actions, node);
    AbsAfter(sys, past, n, node, q, actions);
    forall m | m in t.nodes ensures NodeOk(t.cfg, t.built, q, m, t.nodes[m]) {
      MoveNodes(sys, past, n, node, q, m);
    }
    forall p | p in t.net ensures PacketOk(t.cfg, t.built, q, p) {
      MovePackets(sys, past, n, q, actions, p);
    }
    forall r ensures ReadOk(t, q, r) {
      assert ReadOk(sys, past, r);
      MoveReads(sys, past, n, node, q, actions, r);
    }
  }

  lemma SameReads(past: Past, h: History)
    requires Extends(past.h, h)
    ensures PastExtends(past, past.(h := h))
  {
  }

  // ----------------------------------------------------------------- durability

  lemma {:induction false} SequenceValid(entries: seq<LogEntry>, expected: nat, previous: nat, current: nat)
    requires forall i :: 0 <= i < |entries| ==> entries[i].index == expected + i
                                                && previous <= entries[i].term <= current
    requires forall i, j :: 0 <= i <= j < |entries| ==> entries[i].term <= entries[j].term
    ensures StableStore.ValidSequence(entries, expected, previous)
    ensures EntriesRecoverable(entries, expected, previous, current)
    decreases |entries|
  {
    if entries != [] {
      SequenceValid(entries[1..], expected + 1, entries[0].term, current);
    }
  }

  /** What the uncompacted log says about the retained entries. */
  ghost predicate Describes(full: Log, node: Node) {
    && WellFormed(full) && TermsBelow(full, node.Term() + 1)
    && |full| == node.log.baseIndex + |node.log.entries| == node.log.LastIndex()
    && LastTerm(full) == node.log.LastTerm()
    && (forall i :: 0 <= i < |node.log.entries| ==> node.log.entries[i] == full[node.log.baseIndex + i])
    && node.log.baseTerm == TermAt(full, node.log.baseIndex)
  }

  lemma EntriesShape(sys: System, past: Past, n: NodeId)
    requires SystemInv(sys, past) && n in sys.nodes
    ensures n in sys.cfg.participants && NodeOk(sys.cfg, sys.built, past, n, sys.nodes[n])
    ensures sys.cfg.Valid() && Inv(Abs(sys, past.h))
    ensures var full := FullLog(sys.nodes[n].log, past.h.logs);
            Describes(full, sys.nodes[n]) && LogInv(full, past.h)
  {
    assert NodeOk(sys.cfg, sys.built, past, n, sys.nodes[n]);
    assert PeerInv(Abs(sys, past.h), n);
    var node := sys.nodes[n];
    var full := FullLog(node.log, past.h.logs);
    if node.log.entries != [] {
      assert full[|full| - 1].index == |full|;
    }
  }

  /** Every node's durable state passes both the store's and the node's validators. */
  lemma StableValid(sys: System, past: Past, n: NodeId)
    requires SystemInv(sys, past) && n in sys.nodes
    ensures StableStore.ValidIndexes(sys.nodes[n].Stable())
    ensures Recover(n, sys.cfg, sys.nodes[n].Stable()) == Ok(Rebooted(sys.nodes[n]))
    ensures StableStore.LastIndex(sys.nodes[n].Stable()) == sys.nodes[n].log.LastIndex()
    ensures StableStore.BaseIndex(sys.nodes[n].Stable()) == sys.nodes[n].log.baseIndex
    ensures StableStore.BaseTerm(sys.nodes[n].Stable()) == sys.nodes[n].log.baseTerm
  {
    hide SystemInv, NodeOk, Describes, LogInv, StableStore.ValidIndexes, StableStore.ValidSequence,
         EntriesRecoverable, Recover, Rebooted, Inv, Abs, FullLog, StableStore.LastIndex, StableStore.BaseIndex,
           StableStore.BaseTerm;
    EntriesShape(sys, past, n);
    EntriesSequence(sys.nodes[n], FullLog(sys.nodes[n].log, past.h.logs));
    StableRecovers(sys.cfg, sys.built, past, n, sys.nodes[n]);
  }

  lemma EntriesSequence(node: Node, full: Log)
    requires Describes(full, node)
    ensures node.log.LastIndex() == node.log.baseIndex + |node.log.entries|
    ensures node.log.entries != [] ==> node.log.entries[0].index == node.log.baseIndex + 1
    ensures StableStore.ValidSequence(node.log.entries, node.log.baseIndex + 1, node.log.baseTerm)
    ensures EntriesRecoverable(node.log.entries, node.log.baseIndex + 1, node.log.baseTerm, node.Term())
  {
    var base, entries := node.log.baseIndex, node.log.entries;
    forall i | 0 <= i < |entries| ensures entries[i].index == base + 1 + i
      && node.log.baseTerm <= entries[i].term <= node.Term() {
      assert base > 0 ==> Ordered(full, base - 1, base + i);
    }
    forall i, j | 0 <= i <= j < |entries| ensures entries[i].term <= entries[j].term {
      assert Ordered(full, base + i, base + j);
    }
    SequenceValid(entries, base + 1, node.log.baseTerm, node.Term());
  }

  lemma StableRecovers(cfg: Configuration, built: set<PersistentSnapshot>, past: Past, n: NodeId, node: Node)
    requires NodeOk(cfg, built, past, n, node) && n in cfg.participants
    requires node.log.LastIndex() == node.log.baseIndex + |node.log.entries|
    requires node.log.entries != [] ==> node.log.entries[0].index == node.log.baseIndex + 1
    requires StableStore.ValidSequence(node.log.entries, node.log.baseIndex + 1, node.log.baseTerm)
    requires EntriesRecoverable(node.log.entries, node.log.baseIndex + 1, node.log.baseTerm, node.Term())
    ensures StableStore.ValidIndexes(node.Stable())
    ensures Recover(n, cfg, node.Stable()) == Ok(Rebooted(node))
    ensures StableStore.LastIndex(node.Stable()) == node.log.LastIndex()
    ensures StableStore.BaseIndex(node.Stable()) == node.log.baseIndex
    ensures StableStore.BaseTerm(node.Stable()) == node.log.baseTerm
  {
  }

  /** The same node with its volatile state lost. */
  function Rebooted(node: Node): Node {
    node.(role := Follower, leaderId := None, campaignTerm := None, votes := {}, progress := map[],
          recentActive := {}, pendingReads := map[], incomingSnapshot := None)
  }

  /** Losing volatile state keeps the invariant. */
  lemma RebootKeepsInv(sys: System, past: Past, n: NodeId)
    requires SystemInv(sys, past) && n in sys.nodes
    ensures SystemInv(After(sys, n, [], Rebooted(sys.nodes[n])), past)
  {
    var node := Rebooted(sys.nodes[n]);
    assert NodeOk(sys.cfg, sys.built, past, n, sys.nodes[n]);
    var s := Abs(sys, past.h);
    StepDownKeepsInv(s, n, s.peers[n].term);
    assert StepDown(s, n, s.peers[n].term) == WithPeer(s, n, PeerOf(node, past.h.logs), past.h);
    Move(sys, past, n, node, past, []);
  }

  // ------------------------------------------------------------------- prefixes

  /** Crashing after the first `k` actions leaves a store the node restarts from,
      in a cluster that keeps the invariant, having emitted only sound actions. */
  ghost predicate CrashSafe(sys: System, past: Past, n: NodeId, actions: seq<Action>, k: nat) {
    && n in sys.nodes && k <= |actions|
    && var r := Reboot(sys, n, actions[..k]);
       && r.Ok?
       && exists g {:trigger PastExtends(past, g)} ::
            PastExtends(past, g) && SystemInv(After(sys, n, actions[..k], r.value), g) && ActionsOk(g, n, actions[..k])
  }

  /** Executing `actions` takes node `n` to `node`, durably and safely at every prefix. */
  ghost predicate Safe(sys: System, past: Past, n: NodeId, actions: seq<Action>, node: Node, q: Past) {
    && n in sys.nodes && PastExtends(past, q)
    && StableStore.ExecuteAll(sys.nodes[n].Stable(), actions) == Ok(node.Stable())
    && SystemInv(After(sys, n, actions, node), q)
    && ActionsOk(q, n, actions)
    && (forall k {:trigger CrashSafe(sys, past, n, actions, k)} ::
          0 <= k <= |actions| ==> CrashSafe(sys, past, n, actions, k))
  }

  lemma AfterAfter(sys: System, n: NodeId, a: seq<Action>, mid: Node, b: seq<Action>, node: Node)
    ensures After(After(sys, n, a, mid), n, b, node) == After(sys, n, a + b, node)
  {
    assert Sends(n, a + b) == Sends(n, a) + Sends(n, b);
    assert sys.nodes[n := mid][n := node] == sys.nodes[n := node];
  }

  lemma AfterNothing(sys: System, n: NodeId)
    requires n in sys.nodes
    ensures After(sys, n, [], sys.nodes[n]) == sys
  {
    assert sys.nodes[n := sys.nodes[n]] == sys.nodes;
    assert Sends(n, []) == {};
  }

  lemma ActionsOkConcat(past: Past, n: NodeId, a: seq<Action>, b: seq<Action>)
    requires ActionsOk(past, n, a) && ActionsOk(past, n, b)
    ensures ActionsOk(past, n, a + b)
  {
    forall x | x in a + b ensures ActionOk(past, n, x) {
      assert x in a || x in b;
    }
  }

  /** A crash in the second stage is a crash after the whole first stage. */
  lemma ChainCrash(sys: System, past: Past, n: NodeId, a: seq<Action>, mid: Node, g: Past, b: seq<Action>, k: nat)
    requires Safe(sys, past, n, a, mid, g) && k <= |b|
    requires CrashSafe(After(sys, n, a, mid), g, n, b, k)
    ensures CrashSafe(sys, past, n, a + b, |a| + k)
  {
    hide SystemInv, PastExtends, ActionsOk;
    var t := After(sys, n, a, mid);
    assert (a + b)[..|a| + k] == a + b[..k];
    StableStore.ExecuteConcat(sys.nodes[n].Stable(), a, b[..k]);
    var r := Reboot(t, n, b[..k]);
    assert r == Reboot(sys, n, a + b[..k]);
    var e :| PastExtends(g, e) && SystemInv(After(t, n, b[..k], r.value), e) && ActionsOk(e, n, b[..k]);
    AfterAfter(sys, n, a, mid, b[..k], r.value);
    PastExtendsTransitive(past, g, e);
    ActionsOkExtends(g, e, n, a);
    ActionsOkConcat(e, n, a, b[..k]);
  }

  /** Stages compose. */
  lemma Chain(sys: System, past: Past, n: NodeId, a: seq<Action>, mid: Node, g: Past, b: seq<Action>, node: Node,
              q: Past)
    requires Safe(sys, past, n, a, mid, g)
    requires Safe(After(sys, n, a, mid), g, n, b, node, q)
    ensures Safe(sys, past, n, a + b, node, q)
  {
    StableStore.ExecuteConcat(sys.nodes[n].Stable(), a, b);
    AfterAfter(sys, n, a, mid, b, node);
    PastExtendsTransitive(past, g, q);
    ActionsOkExtends(g, q, n, a);
    ActionsOkConcat(q, n, a, b);
    ChainCrashes(sys, past, n, a, mid, g, b, node, q);
  }

  lemma ChainCrashes(sys: System, past: Past, n: NodeId, a: seq<Action>, mid: Node, g: Past, b: seq<Action>,
                     node: Node, q: Past)
    requires Safe(sys, past, n, a, mid, g)
    requires Safe(After(sys, n, a, mid), g, n, b, node, q)
    ensures forall k {:trigger CrashSafe(sys, past, n, a + b, k)} ::
              0 <= k <= |a + b| ==> CrashSafe(sys, past, n, a + b, k)
  {
    hide SystemInv, ActionsOk, PastExtends;
    forall k | 0 <= k <= |a + b| ensures CrashSafe(sys, past, n, a + b, k) {
      if k <= |a| {
        assert CrashSafe(sys, past, n, a, k);
        assert (a + b)[..k] == a[..k];
      } else {
        assert CrashSafe(After(sys, n, a, mid), g, n, b, k - |a|);
        ChainCrash(sys, past, n, a, mid, g, b, k - |a|);
      }
    }
  }

  /** Crashing with nothing left to execute. */
  lemma CrashHere(sys: System, past: Past, n: NodeId, actions: seq<Action>, node: Node, q: Past)
    requires n in sys.nodes && PastExtends(past, q)
    requires StableStore.ExecuteAll(sys.nodes[n].Stable(), actions) == Ok(node.Stable())
    requires SystemInv(After(sys, n, actions, node), q) && ActionsOk(q, n, actions)
    ensures CrashSafe(sys, past, n, actions, |actions|)
  {
    hide SystemInv, PastExtends, ActionsOk, StableStore.ExecuteAll, Recover, Rebooted, StableStore.ValidIndexes;
    var t := After(sys, n, actions, node);
    StableValid(t, q, n);
    RebootKeepsInv(t, q, n);
    AfterAfter(sys, n, actions, node, [], Rebooted(node));
    assert actions + [] == actions && actions[..|actions|] == actions;
  }

  /** Crashing before the action. */
  lemma CrashBefore(sys: System, past: Past, n: NodeId, a: Action)
    requires SystemInv(sys, past) && n in sys.nodes
    ensures CrashSafe(sys, past, n, [a], 0)
  {
    AfterNothing(sys, n);
    CrashHere(sys, past, n, [], sys.nodes[n], past);
    assert CrashSafe(sys, past, n, [], 0);
    assert [a][..0] == [];
  }

  /** A change of volatile state alone, with no action. */
  lemma Silent(sys: System, past: Past, n: NodeId, node: Node, q: Past)
    requires n in sys.nodes && PastExtends(past, q)
    requires sys.nodes[n].Stable() == node.Stable()
    requires SystemInv(After(sys, n, [], node), q)
    ensures Safe(sys, past, n, [], node, q)
  {
    CrashHere(sys, past, n, [], node, q);
  }

  /** One action. */
  lemma Single(sys: System, past: Past, n: NodeId, a: Action, node: Node, q: Past)
    requires SystemInv(sys, past) && n in sys.nodes && PastExtends(past, q)
    requires StableStore.Execute(sys.nodes[n].Stable(), a) == Ok(node.Stable())
    requires SystemInv(After(sys, n, [a], node), q) && ActionOk(q, n, a)
    ensures Safe(sys, past, n, [a], node, q)
  {
    hide SystemInv, PastExtends, ActionOk, StableStore.Execute;
    assert StableStore.ExecuteAll(sys.nodes[n].Stable(), [a]) == Ok(node.Stable()) by {
      assert StableStore.ExecuteAll(node.Stable(), [a][1..]) == Ok(node.Stable());
    }
    CrashHere(sys, past, n, [a], node, q);
    CrashBefore(sys, past, n, a);
    forall k | 0 <= k <= |[a]| ensures CrashSafe(sys, past, n, [a], k) {
      assert k == 0 || k == 1;
    }
  }

  predicate Quiet(a: Action) {
    !a.Persist? && !a.Apply?
  }

  /** Actions without durable effect, from a node that has already changed. */
  lemma {:induction false} Emit(sys: System, past: Past, n: NodeId, actions: seq<Action>)
    requires SystemInv(sys, past) && n in sys.nodes
    requires forall a :: a in actions ==> Quiet(a)
    requires ActionsOk(past, n, actions) && PacketsOk(sys.cfg, sys.built, past, n, actions)
    ensures Safe(sys, past, n, actions, sys.nodes[n], past)
    decreases |actions|
  {
    var same := sys.nodes[n];
    AfterNothing(sys, n);
    if actions == [] {
      Silent(sys, past, n, same, past);
    } else {
      var a := actions[0];
      var t := After(sys, n, [a], same);
      assert a in actions && ActionOk(past, n, a);
      assert NodeOk(sys.cfg, sys.built, past, n, same);
      var s := Abs(sys, past.h);
      assert WithPeer(s, n, PeerOf(same, past.h.logs), past.h) == s by {
        assert s.peers[n := PeerOf(same, past.h.logs)] == s.peers;
      }
      Move(sys, past, n, same, past, [a]);
      Single(sys, past, n, a, same, past);
      assert ActionsOk(past, n, actions[1..]) by {
        forall x | x in actions[1..] ensures ActionOk(past, n, x) {
          assert x in actions;
        }
      }
      assert PacketsOk(t.cfg, t.built, past, n, actions[1..]) by {
        assert forall x :: x in actions[1..] ==> x in actions;
      }
      Emit(t, past, n, actions[1..]);
      Chain(sys, past, n, [a], same, past, actions[1..], same, past);
      assert [a] + actions[1..] == actions;
    }
  }
}
