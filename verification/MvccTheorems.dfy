/** Theorems over every run of the engine from its first boot. */
module MvccTheorems {
  import opened Wrappers
  import opened Ordering
  import opened OrderedKeys
  import opened Mvcc
  import opened MvccChains
  import opened MvccRuns

  // ------------------------------------------------------------------------ steps

  lemma NewKeeps(e: Engine, p: Past, c: Command)
    requires Inv(e, p) && IsNew(e, c)
    ensures Inv(Step(e, c).0, Recorded(p, e, c))
  {
    hide Inv, ServedOk, ChainsOk, CommitsOk, IndexesOk, Commit, ValidateAttempt, Canonical, WritesOf, NewIndexes;
    var a, g := c.attempt, Step(e, c).0;
    ServeKeeps(e, p, c, g);
    match ValidateAttempt(e, a)
    case Ok(d) =>
      CommitFrame(e, c.index, a, d);
      assert Committing(e, g, a, d);
      CommitKeepsReads(e, p, g, a, d);
      CommitKeepsIndexes(e, p, g, a, d);
      CommitKeepsChains(e, p, g, a, d);
      InvFrom(g, Extended(p, e, a), Recorded(p, e, c));
    case Err(_) =>
      BumpKeeps(e, p, g);
      InvFrom(g, p, Recorded(p, e, c));
  }

  lemma CommitKeepsChains(e: Engine, p: Past, g: Engine, a: Attempt, c: Catalog)
    requires Inv(e, p) && Committing(e, g, a, c)
    ensures ChainsOk(g)
  {
    hide CommitsOk, IndexesOk, ServedOk, Commit, ValidateAttempt, Canonical, WritesOf, NewIndexes, RowChain, MarkChain;
    ValidCatalog(e, a);
    CommitFrame(e, e.lastApplied + 1, a, c);
    forall k ensures RowChain(Rows(g.primary, k), g.lastApplied) {
      CommittingRows(e, g, a, c, k);
    }
    forall k ensures MarkChain(Marks(g.secondary, k), g.lastApplied)
      && (Marks(g.secondary, k) != [] ==> k.index in g.catalog.indexes) {
      CommittingMarks(e, g, a, c, k);
    }
  }

  lemma InvFrom(g: Engine, p: Past, q: Past)
    requires ChainsOk(g) && CommitsOk(g, p) && IndexesOk(g, p)
    requires q.commits == p.commits && q.created == p.created
    requires forall x {:trigger ServedOk(g, q, x)} :: ServedOk(g, q, x)
    ensures Inv(g, q)
  {
    hide ServedOk, Database, VisibleRow, VisibleMark;
    forall i: nat, j: nat, k ensures FirstWins(q, i, j, k) {
      assert FirstWins(p, i, j, k);
    }
    forall k, ts: nat ensures ReadsFold(g, q, k, ts) {
      assert ReadsFold(g, p, k, ts);
    }
    forall key, ts: nat ensures Agrees(g, q, key, ts) {
      assert Agrees(g, p, key, ts);
    }
    forall key ensures Since(g, q, key) {
      assert Since(g, p, key);
    }
    forall i, k | 0 <= i < |q.commits| ensures HeadCovers(g, q.commits[i], k) {
      assert HeadCovers(g, p.commits[i], k);
    }
  }

  /** Every command keeps the invariant. */
  lemma StepKeeps(e: Engine, p: Past, c: Command)
    requires Inv(e, p)
    ensures Inv(Step(e, c).0, Recorded(p, e, c))
  {
    hide Inv, Commit, ValidateAttempt, Canonical, WritesOf, NewIndexes;
    var g := Step(e, c).0;
    if IsNew(e, c) {
      NewKeeps(e, p, c);
    } else if c.Sweep? {
      if Vacuum(e, c.retainFrom).Ok? {
        VacuumKeeps(e, p, c.retainFrom, g);
      }
    } else if g != e {
      assert g == e.(lastApplied := e.lastApplied + 1, lastApplyHash := g.lastApplyHash,
                     lastApplyOutcome := g.lastApplyOutcome);
      BumpKeeps(e, p, g);
      SameClientsKeep(e, p, g);
      InvFrom(g, p, p);
    }
  }

  // ------------------------------------------------------------------------- runs

  function Run(e: Engine, cs: seq<Command>): Engine
    decreases |cs|
  {
    if cs == [] then e else Run(Step(e, cs[0]).0, cs[1..])
  }

  function History(p: Past, e: Engine, cs: seq<Command>): Past
    decreases |cs|
  {
    if cs == [] then p else History(Recorded(p, e, cs[0]), Step(e, cs[0]).0, cs[1..])
  }

  const DAWN := Past([], map[], map[])

  function After(cs: seq<Command>): Engine {
    Run(Fresh(), cs)
  }

  function PastOf(cs: seq<Command>): Past {
    History(DAWN, Fresh(), cs)
  }

  lemma {:induction false} RunKeeps(e: Engine, p: Past, cs: seq<Command>)
    requires Inv(e, p)
    ensures Inv(Run(e, cs), History(p, e, cs))
    decreases |cs|
  {
    hide Inv, Step, Recorded;
    if cs != [] {
      StepKeeps(e, p, cs[0]);
      RunKeeps(Step(e, cs[0]).0, Recorded(p, e, cs[0]), cs[1..]);
    }
  }

  lemma Reached(cs: seq<Command>)
    ensures Inv(After(cs), PastOf(cs))
  {
    FreshInv();
    RunKeeps(Fresh(), DAWN, cs);
  }

  lemma {:induction false} RunSplit(e: Engine, p: Past, cs: seq<Command>, ds: seq<Command>)
    ensures Run(e, cs + ds) == Run(Run(e, cs), ds)
    ensures History(p, e, cs + ds) == History(History(p, e, cs), Run(e, cs), ds)
    decreases |cs|
  {
    if cs == [] {
      assert cs + ds == ds;
    } else {
      assert (cs + ds)[1..] == cs[1..] + ds;
      RunSplit(Step(e, cs[0]).0, Recorded(p, e, cs[0]), cs[1..], ds);
    }
  }

  /** Indexes only move forward, and new commits come after everything applied. */
  lemma {:induction false} HistoryGrows(e: Engine, p: Past, cs: seq<Command>)
    ensures e.lastApplied <= Run(e, cs).lastApplied
    ensures p.commits <= History(p, e, cs).commits
    ensures forall i {:trigger History(p, e, cs).commits[i]} :: |p.commits| <= i < |History(p, e, cs).commits| ==>
              History(p, e, cs).commits[i].index > e.lastApplied
    ensures forall c {:trigger Trace(p, c)} :: Trace(p, c) <= Trace(History(p, e, cs), c)
    decreases |cs|
  {
    if cs != [] {
      StepGrows(e, p, cs[0]);
      HistoryGrows(Step(e, cs[0]).0, Recorded(p, e, cs[0]), cs[1..]);
      var q, r := Recorded(p, e, cs[0]), History(p, e, cs);
      forall c ensures Trace(p, c) <= Trace(r, c) {
        assert Trace(p, c) <= Trace(q, c) && Trace(q, c) <= Trace(r, c);
      }
      forall i | |p.commits| <= i < |r.commits| ensures r.commits[i].index > e.lastApplied {
        if i < |q.commits| {
          assert r.commits[i] == q.commits[i];
        }
      }
    }
  }

  lemma StepGrows(e: Engine, p: Past, c: Command)
    ensures e.lastApplied <= Step(e, c).0.lastApplied
    ensures p.commits <= Recorded(p, e, c).commits
    ensures forall i {:trigger Recorded(p, e, c).commits[i]} :: |p.commits| <= i < |Recorded(p, e, c).commits| ==>
              Recorded(p, e, c).commits[i].index > e.lastApplied
    ensures forall x {:trigger Trace(p, x)} :: Trace(p, x) <= Trace(Recorded(p, e, c), x)
  {
    hide Commit, ValidateAttempt, Canonical, WritesOf, NewIndexes, Vacuum;
    if c.Txn? {
      EvaluateFrame(e, c.index, c.attempt);
    } else if c.Sweep? && Vacuum(e, c.retainFrom).Ok? {
      VacuumChains(e, c.retainFrom, Vacuum(e, c.retainFrom).value);
    }
  }

  lemma {:induction false} LaterCommitsInvisible(commits: seq<CommitRecord>, all: seq<CommitRecord>, ts: nat)
    requires commits <= all
    requires forall i {:trigger all[i]} :: |commits| <= i < |all| ==> all[i].index > ts
    ensures Database(all, ts) == Database(commits, ts)
    decreases |all|
  {
    if |commits| < |all| {
      assert all[|all| - 1].index > ts;
      LaterCommitsInvisible(commits, all[..|all| - 1], ts);
    } else {
      assert all == commits;
    }
  }

  // ------------------------------------------------------------------- isolation

  /** Snapshot reads: what a snapshot at `ts` shows is the commits up to `ts`, in order. */
  lemma SnapshotReads(cs: seq<Command>, k: LogicalKey, ts: nat)
    requires After(cs).retainedFloor <= ts
    ensures Read(After(cs), k, ts) == Stored(Database(PastOf(cs).commits, ts), k)
  {
    hide After, PastOf, Database, Read;
    Reached(cs);
    assert ReadsFold(After(cs), PastOf(cs), k, ts);
  }

  /** Repeatable reads: nothing that happens later changes a snapshot that is still retained. */
  lemma ReadsNeverChange(cs: seq<Command>, more: seq<Command>, k: LogicalKey, ts: nat)
    requires ts <= After(cs).lastApplied && After(cs).retainedFloor <= ts && After(cs + more).retainedFloor <= ts
    ensures Read(After(cs + more), k, ts) == Read(After(cs), k, ts)
  {
    hide Database, Read;
    SnapshotReads(cs, k, ts);
    SnapshotReads(cs + more, k, ts);
    RunSplit(Fresh(), DAWN, cs, more);
    HistoryGrows(After(cs), PastOf(cs), more);
    LaterCommitsInvisible(PastOf(cs).commits, PastOf(cs + more).commits, ts);
  }

  /** First committer wins: of two committed attempts that wrote one key, the later one
      had seen the earlier one. */
  lemma FirstCommitterWins(cs: seq<Command>, i: nat, j: nat, k: LogicalKey)
    requires i < j < |PastOf(cs).commits| && k in PastOf(cs).commits[i].writes && k in PastOf(cs).commits[j].writes
    ensures PastOf(cs).commits[i].index <= PastOf(cs).commits[j].readTs < PastOf(cs).commits[j].index
  {
    hide After, PastOf;
    Reached(cs);
    assert FirstWins(PastOf(cs), i, j, k);
    ReadBeforeCommit(cs, j);
  }

  lemma {:induction false} ReadBeforeCommit(cs: seq<Command>, j: nat)
    requires j < |PastOf(cs).commits|
    ensures PastOf(cs).commits[j].readTs < PastOf(cs).commits[j].index
  {
    HistoryReads(Fresh(), DAWN, cs, j);
  }

  lemma {:induction false} HistoryReads(e: Engine, p: Past, cs: seq<Command>, j: nat)
    requires forall i :: 0 <= i < |p.commits| ==> p.commits[i].readTs < p.commits[i].index
    requires j < |History(p, e, cs).commits|
    ensures History(p, e, cs).commits[j].readTs < History(p, e, cs).commits[j].index
    decreases |cs|
  {
    if cs != [] {
      RecordedReads(e, p, cs[0]);
      HistoryReads(Step(e, cs[0]).0, Recorded(p, e, cs[0]), cs[1..], j);
    }
  }

  lemma RecordedReads(e: Engine, p: Past, c: Command)
    requires forall i :: 0 <= i < |p.commits| ==> p.commits[i].readTs < p.commits[i].index
    ensures var q := Recorded(p, e, c); forall i :: 0 <= i < |q.commits| ==> q.commits[i].readTs < q.commits[i].index
  {
    hide Canonical, WritesOf, NewIndexes, Commit, CheckWrites, ApplyMutations;
  }

  // ----------------------------------------------------------------- exactly once

  /** A client's requests are applied in the order 1, 2, 3, ... at increasing log indexes. */
  lemma ExactlyOnce(cs: seq<Command>, c: ClientId, i: nat)
    requires i < |Trace(PastOf(cs), c)|
    ensures Trace(PastOf(cs), c)[i].sequence == i + 1
    ensures forall j :: i < j < |Trace(PastOf(cs), c)| ==> Trace(PastOf(cs), c)[i].index < Trace(PastOf(cs), c)[j].index
  {
    hide After, PastOf;
    Reached(cs);
    assert ServedOk(After(cs), PastOf(cs), c);
  }

  /** At the next index: a request is applied exactly when it is its client's next one;
      a duplicate answer is the answer stored for that sequence number and hash; and
      neither a duplicate nor a rejection touches rows, indexes, catalog or clients. */
  lemma RequestOutcome(cs: seq<Command>, c: Command, outcome: Outcome)
    requires c.Txn? && c.index == After(cs).lastApplied + 1 && Step(After(cs), c).1 == Some(outcome)
    ensures outcome.Applied? <==> c.attempt.sequence == |Trace(PastOf(cs), c.attempt.client)| + 1
    ensures outcome.Applied? ==>
              Trace(PastOf(cs + [c]), c.attempt.client)
              == Trace(PastOf(cs), c.attempt.client)
                + [Served(c.index, c.attempt.sequence, c.requestHash, outcome.result)]
    ensures !outcome.Applied? ==> PastOf(cs + [c]) == PastOf(cs)
    ensures outcome.Duplicate? ==>
              exists s :: s in Trace(PastOf(cs), c.attempt.client)
                && s.sequence == c.attempt.sequence && s.hash == c.requestHash && s.result == outcome.result
    ensures !outcome.Applied? ==>
              var e, f := After(cs), After(cs + [c]);
              f.primary == e.primary && f.secondary == e.secondary && f.catalog == e.catalog && f.clients == e.clients
  {
    hide Canonical, WritesOf, NewIndexes, ValidateAttempt, Commit, ChainsOk, CommitsOk, IndexesOk;
    Reached(cs);
    var e, p, client := After(cs), PastOf(cs), c.attempt.client;
    assert ServedOk(e, p, client);
    RunSplit(Fresh(), DAWN, cs, [c]);
    assert [c][1..] == [];
    assert Run(e, [c]) == Step(e, c).0 && History(p, e, [c]) == Recorded(p, e, c);
    if outcome.Duplicate? {
      var t := Trace(p, client);
      assert t[|t| - 1] in t;
    }
  }

  /** Replaying the last applied entry returns its outcome and changes nothing. */
  lemma ReplayIsIdempotent(e: Engine, c: Command, outcome: Outcome)
    requires !c.Sweep? && Step(e, c).1 == Some(outcome)
    ensures Step(Step(e, c).0, c) == (Step(e, c).0, Some(outcome))
  {
    hide Canonical, ValidateAttempt, Commit;
    if c.Txn? {
      EvaluateFrame(e, c.index, c.attempt);
    }
  }

  // -------------------------------------------------------------- index agreement

  lemma SortedStep(s: set<Bytes>)
    requires s != {}
    ensures Sorted(s) == [Least(s)] + Sorted(s - {Least(s)})
  {
  }

  lemma LeastOfPart(s: set<Bytes>, t: set<Bytes>)
    requires t <= s && s != {} && Least(s) in t
    ensures Least(t) == Least(s)
  {
    assert IsLeast(t, Least(s));
    LeastUnique(t, Least(s), Least(t));
  }

  /** Keys where nothing is found do not matter. */
  lemma {:induction false} CollectPart(e: Engine, t: Transaction, table: TableId, all: set<Bytes>, part: set<Bytes>,
                                       filter: Option<(nat, Value)>)
    requires part <= all
    requires forall pk :: pk in all && pk !in part ==> Matching(ReadKey(e, t, LogicalKey(table, pk)), filter).None?
    ensures Collect(e, t, table, Sorted(all), filter) == Collect(e, t, table, Sorted(part), filter)
    decreases |all|
  {
    if all != {} {
      var m := Least(all);
      SortedStep(all);
      if m in part {
        LeastOfPart(all, part);
        SortedStep(part);
        CollectPart(e, t, table, all - {m}, part - {m}, filter);
      } else {
        CollectPart(e, t, table, all - {m}, part, filter);
      }
    } else {
      assert part == {};
    }
  }

  lemma {:induction false} FilterLater(e: Engine, t: Transaction, table: TableId, pks: seq<Bytes>, column: nat,
                                       v: Value)
    ensures RowsWith(Collect(e, t, table, pks, None), column, v) == Collect(e, t, table, pks, Some((column, v)))
    decreases |pks|
  {
    if pks != [] {
      FilterLater(e, t, table, pks[1..], column, v);
      var r := ReadKey(e, t, LogicalKey(table, pks[0]));
      if r.Some? {
        var rest := Collect(e, t, table, pks[1..], None);
        assert Collect(e, t, table, pks, None) == [r.value] + rest;
        assert ([r.value] + rest)[1..] == rest;
      } else {
        assert Collect(e, t, table, pks, None) == Collect(e, t, table, pks[1..], None);
      }
    }
  }

  /** A stored row that carries the value is in the index. */
  lemma IndexedWhenVisible(e: Engine, p: Past, x: IndexMeta, v: Value, pk: Bytes, ts: nat)
    requires Inv(e, p) && x.id in e.catalog.indexes && e.catalog.indexes[x.id] == x && !v.IsNull()
    requires e.retainedFloor <= ts && p.created[x.id] <= ts
    requires Cell(Read(e, LogicalKey(x.table, pk), ts), x.column) == Some(v)
    ensures pk in IndexedKeys(e, x.id, v, ts)
  {
    hide ChainsOk, CommitsOk, ServedOk;
    var key := SecondaryKey(x.id, EncodeOrdered(v), pk);
    assert Agrees(e, p, key, ts);
    assert key in e.secondary && VisibleMark(e.secondary[key], ts);
  }

  /** Index agreement: looking a value up in an index gives the rows a table scan would
      keep, in the same order, overlay included, from the index's creation on. */
  lemma IndexAgreement(cs: seq<Command>, t: Transaction, x: IndexMeta, v: Value)
    requires x.id in After(cs).catalog.indexes && After(cs).catalog.indexes[x.id] == x && !v.IsNull()
    requires After(cs).retainedFloor <= t.readTs && x.id in PastOf(cs).created && PastOf(cs).created[x.id] <= t.readTs
    ensures ScanSecondary(After(cs), t, x, v) == RowsWith(ScanTable(After(cs), t, x.table), x.column, v)
  {
    hide After, PastOf, ChainsOk, CommitsOk, ServedOk, Collect, RowsWith;
    Reached(cs);
    var e, p := After(cs), PastOf(cs);
    var filter := Some((x.column, v));
    var scanned := StoredKeys(e, x.table) + OverlayKeys(t, x.table);
    var indexed := IndexedKeys(e, x.id, v, t.readTs) + OverlayKeys(t, x.table);
    var hits := set pk | pk in scanned + indexed && Matching(ReadKey(e, t, LogicalKey(x.table, pk)), filter).Some?;
    forall pk | pk in hits ensures pk in scanned && pk in indexed {
      var k := LogicalKey(x.table, pk);
      if k in t.writes {
        assert k.primaryKey in OverlayKeys(t, x.table);
      } else {
        assert k in e.primary;
        assert k.primaryKey in StoredKeys(e, x.table);
        IndexedWhenVisible(e, p, x, v, pk, t.readTs);
      }
    }
    CollectPart(e, t, x.table, scanned, hits, filter);
    CollectPart(e, t, x.table, indexed, hits, filter);
    FilterLater(e, t, x.table, Sorted(scanned), x.column, v);
  }

  lemma {:induction false} NothingYet(vs: seq<SecondaryVersion>, ts: nat)
    requires forall v :: v in vs ==> ts < v.commit
    ensures !VisibleMark(vs, ts)
    decreases |vs|
  {
    if vs != [] {
      assert vs[0] in vs;
      assert forall v :: v in vs[1..] ==> v in vs;
      NothingYet(vs[1..], ts);
    }
  }

  /** Fewer keys find no more, and fewer still when one of the others finds something. */
  lemma {:induction false} CollectFewer(e: Engine, t: Transaction, table: TableId, all: set<Bytes>, part: set<Bytes>,
                                        filter: Option<(nat, Value)>)
    requires part <= all
    ensures |Collect(e, t, table, Sorted(part), filter)| <= |Collect(e, t, table, Sorted(all), filter)|
    ensures (exists pk :: pk in all && pk !in part && Matching(ReadKey(e, t, LogicalKey(table, pk)), filter).Some?) ==>
              |Collect(e, t, table, Sorted(part), filter)| < |Collect(e, t, table, Sorted(all), filter)|
    decreases |all|
  {
    if all != {} {
      var m := Least(all);
      SortedStep(all);
      if m in part {
        LeastOfPart(all, part);
        SortedStep(part);
        CollectFewer(e, t, table, all - {m}, part - {m}, filter);
      } else {
        CollectFewer(e, t, table, all - {m}, part, filter);
      }
    } else {
      assert part == {};
    }
  }

  /** The rows a transaction has written itself, in key order. */
  function OwnRows(e: Engine, t: Transaction, table: TableId): seq<Row> {
    Collect(e, t, table, Sorted(OverlayKeys(t, table)), None)
  }

  /** The stored row behind a key the transaction has not written. */
  predicate Unwritten(e: Engine, t: Transaction, table: TableId, pk: Bytes) {
    pk in StoredKeys(e, table) && pk !in OverlayKeys(t, table)
  }

  /** Before its creation an index shows a transaction its own rows only. */
  lemma BeforeCreationOwnRows(cs: seq<Command>, t: Transaction, x: IndexMeta, v: Value)
    requires x.id in After(cs).catalog.indexes && After(cs).catalog.indexes[x.id] == x && !v.IsNull()
    requires x.id in PastOf(cs).created && t.readTs < PastOf(cs).created[x.id]
    ensures ScanSecondary(After(cs), t, x, v) == RowsWith(OwnRows(After(cs), t, x.table), x.column, v)
    ensures ScanSecondary(After(cs), t, x, v)
            == Collect(After(cs), t, x.table, Sorted(OverlayKeys(t, x.table)), Some((x.column, v)))
  {
    hide After, PastOf, ChainsOk, CommitsOk, ServedOk, RowsWith, Collect;
    Reached(cs);
    var e := After(cs);
    forall key | key in e.secondary && key.index == x.id ensures !VisibleMark(e.secondary[key], t.readTs) {
      assert Since(e, PastOf(cs), key);
      NothingYet(Marks(e.secondary, key), t.readTs);
    }
    assert IndexedKeys(e, x.id, v, t.readTs) + OverlayKeys(t, x.table) == OverlayKeys(t, x.table);
    FilterLater(e, t, x.table, Sorted(OverlayKeys(t, x.table)), x.column, v);
  }

  /** So in an older snapshot it agrees with the table exactly when no visible row outside
      the overlay carries the value. */
  lemma BeforeCreation(cs: seq<Command>, t: Transaction, x: IndexMeta, v: Value)
    requires x.id in After(cs).catalog.indexes && After(cs).catalog.indexes[x.id] == x && !v.IsNull()
    requires x.id in PastOf(cs).created && t.readTs < PastOf(cs).created[x.id]
    ensures ScanSecondary(After(cs), t, x, v) == RowsWith(OwnRows(After(cs), t, x.table), x.column, v)
    ensures ScanSecondary(After(cs), t, x, v) == RowsWith(ScanTable(After(cs), t, x.table), x.column, v)
            <==> forall pk {:trigger Unwritten(After(cs), t, x.table, pk)} :: Unwritten(After(cs), t, x.table, pk) ==>
                   Cell(Read(After(cs), LogicalKey(x.table, pk), t.readTs), x.column) != Some(v)
  {
    hide After, PastOf, RowsWith, Collect, ScanSecondary, Read;
    BeforeCreationOwnRows(cs, t, x, v);
    var e := After(cs);
    var own, all := OverlayKeys(t, x.table), StoredKeys(e, x.table) + OverlayKeys(t, x.table);
    var filter := Some((x.column, v));
    FilterLater(e, t, x.table, Sorted(all), x.column, v);
    UnwrittenRead(e, t, x.table);
    if forall pk :: Unwritten(e, t, x.table, pk) ==>
                      Cell(Read(e, LogicalKey(x.table, pk), t.readTs), x.column) != Some(v) {
      CollectPart(e, t, x.table, all, own, filter);
    } else {
      var pk :| Unwritten(e, t, x.table, pk) && Cell(Read(e, LogicalKey(x.table, pk), t.readTs), x.column) == Some(v);
      CollectFewer(e, t, x.table, all, own, filter);
    }
  }

  lemma UnwrittenRead(e: Engine, t: Transaction, table: TableId)
    ensures forall pk {:trigger Unwritten(e, t, table, pk)} :: Unwritten(e, t, table, pk) ==>
              ReadKey(e, t, LogicalKey(table, pk)) == Read(e, LogicalKey(table, pk), t.readTs)
  {
    forall pk | Unwritten(e, t, table, pk) ensures ReadKey(e, t, LogicalKey(table, pk))
      == Read(e, LogicalKey(table, pk), t.readTs) {
      assert LogicalKey(table, pk) in t.writes ==> LogicalKey(table, pk).primaryKey in OverlayKeys(t, table);
    }
  }
}
