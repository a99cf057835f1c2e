/** Vacuuming cannot be noticed by anything that reads at or above the floor. */
module MvccVacuum {
  import opened Wrappers
  import opened Ordering
  import opened OrderedKeys
  import opened Mvcc
  import opened MvccChains
  import opened MvccRuns
  import opened MvccTheorems

  /** A chain's newest commit, if it is above the floor. */
  function HeadAbove(vs: seq<RowVersion>, floor: nat): Option<nat> {
    if vs != [] && vs[0].commit > floor then Some(vs[0].commit) else None
  }

  ghost predicate SameRow(a: Engine, b: Engine, k: LogicalKey, ts: nat) {
    b.retainedFloor <= ts ==> Read(a, k, ts) == Read(b, k, ts)
  }

  ghost predicate SameMark(a: Engine, b: Engine, key: SecondaryKey, ts: nat) {
    b.retainedFloor <= ts ==> VisibleMark(Marks(a.secondary, key), ts) == VisibleMark(Marks(b.secondary, key), ts)
  }

  ghost predicate SameHead(a: Engine, b: Engine, k: LogicalKey) {
    HeadAbove(Rows(a.primary, k), b.retainedFloor) == HeadAbove(Rows(b.primary, k), b.retainedFloor)
  }

  /** `b` is `a` with history below `b`'s floor forgotten. */
  ghost predicate Alike(a: Engine, b: Engine) {
    && b == a.(primary := b.primary, secondary := b.secondary, retainedFloor := b.retainedFloor)
    && a.retainedFloor <= b.retainedFloor
    && ChainsOk(a) && ChainsOk(b)
    && (forall k, ts {:trigger SameRow(a, b, k, ts)} :: SameRow(a, b, k, ts))
    && (forall key, ts {:trigger SameMark(a, b, key, ts)} :: SameMark(a, b, key, ts))
    && (forall k {:trigger SameHead(a, b, k)} :: SameHead(a, b, k))
  }

  lemma VacuumedAlike(e: Engine, retainFrom: nat, g: Engine)
    requires ChainsOk(e) && Vacuum(e, retainFrom) == Ok(g)
    ensures Alike(e, g)
  {
    hide Vacuum, VacuumRows, VacuumMarks, VisibleRow, VisibleMark, RowChain, MarkChain;
    VacuumedChains(e, retainFrom, g);
    VacuumChains(e, retainFrom, g);
    var floor := g.retainedFloor;
    forall k, ts: nat ensures SameRow(e, g, k, ts) {
      assert RowChain(Rows(e.primary, k), e.lastApplied);
      if floor <= ts {
        VacuumRowsKeeps(Rows(e.primary, k), e.lastApplied, floor, ts);
      }
    }
    forall key, ts: nat ensures SameMark(e, g, key, ts) {
      assert MarkChain(Marks(e.secondary, key), e.lastApplied);
      if floor <= ts {
        VacuumMarksKeeps(Marks(e.secondary, key), e.lastApplied, floor, ts);
      }
    }
    forall k ensures SameHead(e, g, k) {
      assert RowChain(Rows(e.primary, k), e.lastApplied);
      VacuumRowsKeeps(Rows(e.primary, k), e.lastApplied, floor, floor);
    }
  }

  lemma VacuumedChains(e: Engine, retainFrom: nat, g: Engine)
    requires ChainsOk(e) && Vacuum(e, retainFrom) == Ok(g)
    ensures ChainsOk(g)
  {
    hide Vacuum, VacuumRows, VacuumMarks, VisibleRow, VisibleMark, RowChain, MarkChain;
    VacuumChains(e, retainFrom, g);
    forall k ensures RowChain(Rows(g.primary, k), g.lastApplied) {
      VacuumRowsKeeps(Rows(e.primary, k), e.lastApplied, g.retainedFloor, g.retainedFloor);
    }
    forall k ensures MarkChain(Marks(g.secondary, k), g.lastApplied)
                     && (Marks(g.secondary, k) != [] ==> k.index in g.catalog.indexes) {
      VacuumMarksKeeps(Marks(e.secondary, k), e.lastApplied, g.retainedFloor, g.retainedFloor);
    }
  }

  /** A later sweep at any floor leaves the two alike. */
  lemma SweepAlike(a: Engine, b: Engine, retainFrom: nat, f: Engine, g: Engine)
    requires Alike(a, b) && Vacuum(a, retainFrom) == Ok(f) && Vacuum(b, retainFrom) == Ok(g)
    ensures Alike(f, g) && (f.retainedFloor == g.retainedFloor || g.retainedFloor == b.retainedFloor)
    ensures a.retainedFloor == b.retainedFloor ==> f.retainedFloor == g.retainedFloor
  {
    hide ChainsOk, Vacuum, VisibleRow, VisibleMark;
    VacuumedAlike(a, retainFrom, f);
    VacuumedAlike(b, retainFrom, g);
    SweptFloors(a, b, retainFrom, f, g);
    forall k, ts: nat ensures SameRow(f, g, k, ts) {
      assert SameRow(a, b, k, ts) && SameRow(a, f, k, ts) && SameRow(b, g, k, ts);
    }
    forall key, ts: nat ensures SameMark(f, g, key, ts) {
      assert SameMark(a, b, key, ts) && SameMark(a, f, key, ts) && SameMark(b, g, key, ts);
    }
    forall k ensures SameHead(f, g, k) {
      assert SameHead(a, b, k) && SameHead(a, f, k) && SameHead(b, g, k);
    }
  }

  lemma SweptFloors(a: Engine, b: Engine, retainFrom: nat, f: Engine, g: Engine)
    requires a.retainedFloor <= b.retainedFloor
    requires Vacuum(a, retainFrom) == Ok(f) && Vacuum(b, retainFrom) == Ok(g)
    ensures f.retainedFloor <= g.retainedFloor
    ensures f.retainedFloor == g.retainedFloor || g.retainedFloor == b.retainedFloor
    ensures a.retainedFloor == b.retainedFloor ==> f.retainedFloor == g.retainedFloor
  {
  }

  // --------------------------------------------------------------------- decisions

  lemma {:induction false} SameChecks(a: Engine, b: Engine, c: Catalog, readTs: nat, ws: seq<TxnWrite>)
    requires Alike(a, b) && b.retainedFloor <= readTs
    ensures CheckWrites(a, c, readTs, ws) == CheckWrites(b, c, readTs, ws)
    decreases |ws|
  {
    hide ChainsOk;
    if ws != [] {
      assert SameHead(a, b, ws[0].Key());
      SameChecks(a, b, c, readTs, ws[1..]);
    }
  }

  lemma SameDecision(a: Engine, b: Engine, t: Attempt)
    requires Alike(a, b) && (b.retainedFloor <= t.readTs || a.retainedFloor == b.retainedFloor)
    ensures ValidateAttempt(a, t) == ValidateAttempt(b, t)
  {
    hide ChainsOk, Canonical, CheckWrites;
    match ApplyMutations(a.catalog, t.mutations)
    case Some(c) => if b.retainedFloor <= t.readTs { SameChecks(a, b, c, t.readTs, t.writes); }
    case None =>
  }

  // ----------------------------------------------------------------------- commits

  /** Both sides after committing the same attempt at the next index. */
  ghost predicate BothCommit(a: Engine, b: Engine, f: Engine, g: Engine, t: Attempt, c: Catalog) {
    Alike(a, b) && Committing(a, f, t, c) && Committing(b, g, t, c)
    && f.clients == g.clients && f.lastApplyHash == g.lastApplyHash && f.lastApplyOutcome == g.lastApplyOutcome
  }

  lemma AlikeParts(a: Engine, b: Engine)
    requires Alike(a, b)
    ensures ChainsOk(a) && ChainsOk(b) && a.catalog == b.catalog && a.lastApplied == b.lastApplied
            && a.retainedFloor <= b.retainedFloor
    ensures FiledById(a.catalog) && b.retainedFloor <= b.lastApplied
  {
  }

  lemma CommitSameRow(a: Engine, b: Engine, f: Engine, g: Engine, t: Attempt, c: Catalog, k: LogicalKey, ts: nat)
    requires BothCommit(a, b, f, g, t, c)
    ensures SameRow(f, g, k, ts) && SameHead(f, g, k)
  {
    hide ChainsOk, Commit, ValidateAttempt, Canonical, WritesOf, VisibleRow, Alike, RowChain;
    AlikeParts(a, b);
    AlikeAt(a, b, k, ts);
    ValidCatalog(a, t);
    CommittingRead(a, f, t, c, k, ts);
    CommittingRead(b, g, t, c, k, ts);
    CommittingRows(a, f, t, c, k);
    CommittingRows(b, g, t, c, k);
  }

  lemma AlikeAt(a: Engine, b: Engine, k: LogicalKey, ts: nat)
    requires Alike(a, b)
    ensures SameRow(a, b, k, ts) && SameHead(a, b, k)
  {
  }

  lemma CommittingRead(e: Engine, g: Engine, a: Attempt, c: Catalog, k: LogicalKey, ts: nat)
    requires ChainsOk(e) && Committing(e, g, a, c)
    ensures Read(g, k, ts) == if k in WritesOf(a.writes)
            && e.lastApplied + 1 <= ts then WritesOf(a.writes)[k] else Read(e, k, ts)
    ensures g.retainedFloor == e.retainedFloor
  {
    hide Commit, ValidateAttempt, Canonical, WritesOf, VisibleRow;
    ValidCatalog(e, a);
    CommitFrame(e, e.lastApplied + 1, a, c);
    CommitRead(e, e.lastApplied + 1, a, c, k, ts);
  }

  lemma CommitSameOldMark(a: Engine, b: Engine, f: Engine, g: Engine, t: Attempt, c: Catalog, key: SecondaryKey,
                          ts: nat)
    requires BothCommit(a, b, f, g, t, c) && key.index in a.catalog.indexes
    ensures SameMark(f, g, key, ts)
  {
    hide ChainsOk, Commit, ValidateAttempt, Canonical, WritesOf, VisibleRow, VisibleMark, IsMark;
    AlikeParts(a, b);
    var index := a.lastApplied + 1;
    var x := a.catalog.indexes[key.index];
    var k := LogicalKey(x.table, key.primaryKey);
    CommitFrame(b, index, t, c);
    assert SameMark(a, b, key, ts) && SameRow(a, b, k, a.lastApplied);
    CommitOldMarks(a, index, t, c, key);
    CommitOldMarks(b, index, t, c, key);
    PushedMark(index, true, Marks(a.secondary, key), ts);
    PushedMark(index, false, Marks(a.secondary, key), ts);
    PushedMark(index, true, Marks(b.secondary, key), ts);
    PushedMark(index, false, Marks(b.secondary, key), ts);
  }

  lemma CommitSameNewMark(a: Engine, b: Engine, f: Engine, g: Engine, t: Attempt, c: Catalog, key: SecondaryKey,
                          ts: nat)
    requires BothCommit(a, b, f, g, t, c) && key.index !in a.catalog.indexes
    ensures SameMark(f, g, key, ts)
  {
    hide ChainsOk, Commit, ValidateAttempt, Canonical, WritesOf, VisibleRow, IsMark, Alike;
    AlikeParts(a, b);
    var index := a.lastApplied + 1;
    if key.index in c.indexes {
      var k := LogicalKey(c.indexes[key.index].table, key.primaryKey);
      CommitNewMarks(a, index, t, c, key);
      CommitNewMarks(b, index, t, c, key);
      CommitSameRow(a, b, f, g, t, c, k, index);
      CommitFrame(a, index, t, c);
      CommitFrame(b, index, t, c);
    } else {
      CommitNoMarks(a, index, t, c, key);
      CommitNoMarks(b, index, t, c, key);
    }
  }

  lemma CommitAlike(a: Engine, b: Engine, f: Engine, g: Engine, t: Attempt, c: Catalog)
    requires BothCommit(a, b, f, g, t, c)
    ensures Alike(f, g)
  {
    hide ChainsOk, Commit, ValidateAttempt, Canonical, WritesOf, VisibleRow, VisibleMark, SameRow, SameMark, SameHead;
    AlikeParts(a, b);
    CommitFrame(a, a.lastApplied + 1, t, c);
    CommitFrame(b, a.lastApplied + 1, t, c);
    ChainsAfter(a, f, t, c);
    ChainsAfter(b, g, t, c);
    forall k, ts: nat ensures SameRow(f, g, k, ts) {
      CommitSameRow(a, b, f, g, t, c, k, ts);
    }
    forall k ensures SameHead(f, g, k) {
      CommitSameRow(a, b, f, g, t, c, k, 0);
    }
    forall key, ts: nat ensures SameMark(f, g, key, ts) {
      if key.index in a.catalog.indexes {
        CommitSameOldMark(a, b, f, g, t, c, key, ts);
      } else {
        CommitSameNewMark(a, b, f, g, t, c, key, ts);
      }
    }
  }

  lemma ChainsAfter(e: Engine, g: Engine, a: Attempt, c: Catalog)
    requires ChainsOk(e) && Committing(e, g, a, c)
    ensures ChainsOk(g)
  {
    hide Commit, ValidateAttempt, Canonical, WritesOf, NewIndexes, RowChain, MarkChain;
    ValidCatalog(e, a);
    CommitFrame(e, e.lastApplied + 1, a, c);
    forall k ensures RowChain(Rows(g.primary, k), g.lastApplied) {
      CommittingRows(e, g, a, c, k);
    }
    forall k ensures MarkChain(Marks(g.secondary, k), g.lastApplied)
      && (Marks(g.secondary, k) != [] ==> k.index in g.catalog.indexes) {
      CommittingMarks(e, g, a, c, k);
    }
  }

  lemma BumpAlike(a: Engine, b: Engine, f: Engine, g: Engine)
    requires Alike(a, b) && f.lastApplied >= a.lastApplied
    requires f == a.(clients := f.clients, lastApplied := f.lastApplied, lastApplyHash := f.lastApplyHash,
                     lastApplyOutcome := f.lastApplyOutcome)
    requires g == b.(clients := f.clients, lastApplied := f.lastApplied, lastApplyHash := f.lastApplyHash,
                     lastApplyOutcome := f.lastApplyOutcome)
    ensures Alike(f, g)
  {
    hide VisibleRow, VisibleMark;
    forall k ensures RowChain(Rows(f.primary, k), f.lastApplied) && RowChain(Rows(g.primary, k), g.lastApplied) {
      assert RowChain(Rows(a.primary, k), a.lastApplied) && RowChain(Rows(b.primary, k), b.lastApplied);
    }
    forall k ensures MarkChain(Marks(f.secondary, k), f.lastApplied)
      && MarkChain(Marks(g.secondary, k), g.lastApplied) {
      assert MarkChain(Marks(a.secondary, k), a.lastApplied) && MarkChain(Marks(b.secondary, k), b.lastApplied);
    }
    forall k, ts: nat ensures SameRow(f, g, k, ts) {
      assert SameRow(a, b, k, ts);
    }
    forall key, ts: nat ensures SameMark(f, g, key, ts) {
      assert SameMark(a, b, key, ts);
    }
    forall k ensures SameHead(f, g, k) {
      assert SameHead(a, b, k);
    }
  }

  // ------------------------------------------------------------------ bisimulation

  /** Transactions that read at or above the floor; a sweep may do as it likes. */
  predicate Recent(c: Command, floor: nat) {
    c.Txn? ==> floor <= c.attempt.readTs
  }

  /** No floor has passed `floor` but by a sweep of both. */
  predicate Floors(a: Engine, b: Engine, floor: nat) {
    b.retainedFloor <= floor || a.retainedFloor == b.retainedFloor
  }

  lemma TxnAlike(a: Engine, b: Engine, c: Command, floor: nat)
    requires Alike(a, b) && c.Txn? && Recent(c, floor) && Floors(a, b, floor)
    ensures Step(a, c).1 == Step(b, c).1 && Alike(Step(a, c).0, Step(b, c).0)
    ensures Floors(Step(a, c).0, Step(b, c).0, floor)
  {
    hide Alike, Commit, ValidateAttempt, Canonical, Vacuum;
    AlikeFrame(a, b);
    var f, g, attempt := Step(a, c).0, Step(b, c).0, c.attempt;
    SameDecision(a, b, attempt);
    EvaluateFrame(a, c.index, attempt);
    EvaluateFrame(b, c.index, attempt);
    if IsNew(a, c) && ValidateAttempt(a, attempt).Ok? {
      var d := ValidateAttempt(a, attempt).value;
      CommitFrame(a, c.index, attempt, d);
      CommitFrame(b, c.index, attempt, d);
      assert BothCommit(a, b, f, g, attempt, d);
      CommitAlike(a, b, f, g, attempt, d);
    } else {
      BumpAlike(a, b, f, g);
    }
  }

  lemma StepAlike(a: Engine, b: Engine, c: Command, floor: nat)
    requires Alike(a, b) && Recent(c, floor) && Floors(a, b, floor)
    ensures Step(a, c).1 == Step(b, c).1 && Alike(Step(a, c).0, Step(b, c).0)
    ensures Floors(Step(a, c).0, Step(b, c).0, floor)
  {
    hide Alike, Commit, ValidateAttempt, Canonical, Vacuum;
    AlikeFrame(a, b);
    var f, g := Step(a, c).0, Step(b, c).0;
    match c
    case Txn(_, _, _, _) => TxnAlike(a, b, c, floor);
    case Noop(_, _) => BumpAlike(a, b, f, g);
    case Sweep(retainFrom) =>
      SameFloorCheck(a, b, retainFrom);
      if Vacuum(a, retainFrom).Ok? {
        SweepAlike(a, b, retainFrom, f, g);
      }
  }

  lemma SameFloorCheck(a: Engine, b: Engine, retainFrom: nat)
    requires a.lastApplied == b.lastApplied
    ensures Vacuum(a, retainFrom).Ok? <==> Vacuum(b, retainFrom).Ok?
  {
  }

  lemma AlikeFrame(a: Engine, b: Engine)
    requires Alike(a, b)
    ensures b == a.(primary := b.primary, secondary := b.secondary, retainedFloor := b.retainedFloor)
  {
  }

  function Outcomes(e: Engine, cs: seq<Command>): seq<Option<Outcome>>
    decreases |cs|
  {
    if cs == [] then [] else [Step(e, cs[0]).1] + Outcomes(Step(e, cs[0]).0, cs[1..])
  }

  lemma {:induction false} RunAlike(a: Engine, b: Engine, cs: seq<Command>, floor: nat)
    requires Alike(a, b) && Floors(a, b, floor) && forall c :: c in cs ==> Recent(c, floor)
    ensures Outcomes(a, cs) == Outcomes(b, cs) && Alike(Run(a, cs), Run(b, cs))
    decreases |cs|
  {
    hide Alike, Step, Floors;
    if cs != [] {
      assert cs[0] in cs;
      StepAlike(a, b, cs[0], floor);
      assert forall c :: c in cs[1..] ==> c in cs;
      RunAlike(Step(a, cs[0]).0, Step(b, cs[0]).0, cs[1..], floor);
    }
  }

  /** Vacuum bisimulation: after a vacuum, any later run whose transactions read at or above
      the floor, with sweeps of any kind in between, gives the same outcomes; and wherever a
      snapshot may still be read, every table and index scan returns the same rows. */
  lemma VacuumBisimulation(cs: seq<Command>, retainFrom: nat, g: Engine, more: seq<Command>, t: Transaction,
                           x: IndexMeta, v: Value)
    requires Vacuum(After(cs), retainFrom) == Ok(g)
    requires (forall c :: c in more ==> Recent(c, g.retainedFloor)) && Run(g, more).retainedFloor <= t.readTs
    ensures Outcomes(g, more) == Outcomes(After(cs), more)
    ensures ScanTable(Run(g, more), t, x.table) == ScanTable(Run(After(cs), more), t, x.table)
    ensures ScanSecondary(Run(g, more), t, x, v) == ScanSecondary(Run(After(cs), more), t, x, v)
    ensures forall k :: Read(Run(g, more), k, t.readTs) == Read(Run(After(cs), more), k, t.readTs)
    ensures forall k :: VisibleMark(Marks(Run(g, more).secondary, k), t.readTs)
                        == VisibleMark(Marks(Run(After(cs), more).secondary, k), t.readTs)
  {
    hide After, PastOf, Vacuum, ChainsOk, Read, VisibleMark, Run, ScanTable, ScanSecondary, Recent;
    Reached(cs);
    ReachedChains(After(cs), PastOf(cs));
    VacuumedAlike(After(cs), retainFrom, g);
    RunAlike(After(cs), g, more, g.retainedFloor);
    var a, b := Run(After(cs), more), Run(g, more);
    ScansAlike(a, b, t, x, v);
    forall k ensures Read(b, k, t.readTs) == Read(a, k, t.readTs) {
      assert SameRow(a, b, k, t.readTs);
    }
    forall k ensures VisibleMark(Marks(b.secondary, k), t.readTs) == VisibleMark(Marks(a.secondary, k), t.readTs) {
      assert SameMark(a, b, k, t.readTs);
    }
  }

  lemma ReachedChains(e: Engine, p: Past)
    requires Inv(e, p)
    ensures ChainsOk(e)
  {
  }

  /** Scans cannot tell the difference either. */
  lemma ScansAlike(a: Engine, b: Engine, t: Transaction, x: IndexMeta, v: Value)
    requires Alike(a, b) && b.retainedFloor <= t.readTs
    ensures ScanTable(a, t, x.table) == ScanTable(b, t, x.table)
    ensures ScanSecondary(a, t, x, v) == ScanSecondary(b, t, x, v)
  {
    hide ChainsOk, Collect, VisibleRow;
    var overlay := OverlayKeys(t, x.table);
    forall pk ensures ReadKey(a, t, LogicalKey(x.table, pk)) == ReadKey(b, t, LogicalKey(x.table, pk)) {
      assert SameRow(a, b, LogicalKey(x.table, pk), t.readTs);
    }
    var p, q := StoredKeys(a, x.table) + overlay, StoredKeys(b, x.table) + overlay;
    var hits := set pk | pk in p + q && ReadKey(a, t, LogicalKey(x.table, pk)).Some?;
    forall pk | pk in hits ensures pk in p && pk in q {
      var k := LogicalKey(x.table, pk);
      assert k in t.writes ==> k.primaryKey in overlay;
      assert k in a.primary ==> k.primaryKey in StoredKeys(a, x.table);
      assert k in b.primary ==> k.primaryKey in StoredKeys(b, x.table);
      if k !in t.writes {
        NothingStored(a, k, t.readTs);
        NothingStored(b, k, t.readTs);
      }
    }
    CollectPart(a, t, x.table, p, hits, None);
    CollectPart(b, t, x.table, q, hits, None);
    CollectAlike(a, b, t, x.table, Sorted(hits), None);
    if !v.IsNull() {
      assert IndexedKeys(a, x.id, v, t.readTs) == IndexedKeys(b, x.id, v, t.readTs) by {
        IndexedAlike(a, b, x, v, t.readTs);
      }
      CollectAlike(a, b, t, x.table, Sorted(IndexedKeys(a, x.id, v, t.readTs) + overlay), Some((x.column, v)));
    }
  }

  lemma NothingStored(e: Engine, k: LogicalKey, ts: nat)
    ensures Read(e, k, ts).Some? ==> k in e.primary
  {
  }

  lemma IndexedAlike(a: Engine, b: Engine, x: IndexMeta, v: Value, ts: nat)
    requires Alike(a, b) && b.retainedFloor <= ts
    ensures IndexedKeys(a, x.id, v, ts) == IndexedKeys(b, x.id, v, ts)
  {
    hide ChainsOk, VisibleRow;
    forall pk ensures pk in IndexedKeys(a, x.id, v, ts) <==> pk in IndexedKeys(b, x.id, v, ts) {
      var key := SecondaryKey(x.id, EncodeOrdered(v), pk);
      assert SameMark(a, b, key, ts);
      IndexedExactly(a, x, v, pk, ts);
      IndexedExactly(b, x, v, pk, ts);
    }
  }

  lemma IndexedExactly(e: Engine, x: IndexMeta, v: Value, pk: Bytes, ts: nat)
    ensures pk in IndexedKeys(e, x.id, v, ts)
            <==> VisibleMark(Marks(e.secondary, SecondaryKey(x.id, EncodeOrdered(v), pk)), ts)
  {
    var key := SecondaryKey(x.id, EncodeOrdered(v), pk);
    if VisibleMark(Marks(e.secondary, key), ts) {
      assert key in e.secondary && key.primaryKey == pk;
    }
    if pk in IndexedKeys(e, x.id, v, ts) {
      var s :| s in e.secondary && s.index == x.id && s.value == EncodeOrdered(v) && VisibleMark(e.secondary[s], ts)
          && s.primaryKey == pk;
      assert s == key;
    }
  }

  lemma {:induction false} CollectAlike(a: Engine, b: Engine, t: Transaction, table: TableId, pks: seq<Bytes>,
                                        filter: Option<(nat, Value)>)
    requires forall pk {:trigger LogicalKey(table, pk)} ::
               ReadKey(a, t, LogicalKey(table, pk)) == ReadKey(b, t, LogicalKey(table, pk))
    ensures Collect(a, t, table, pks, filter) == Collect(b, t, table, pks, filter)
    decreases |pks|
  {
    if pks != [] {
      CollectAlike(a, b, t, table, pks[1..], filter);
    }
  }
}
