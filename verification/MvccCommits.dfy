/** When a request commits, told from the history of the run: what it asks for and what
    was committed before it, not how the engine checks. */
module MvccCommits {
  import opened Wrappers
  import opened Ordering
  import opened OrderedKeys
  import opened Mvcc
  import opened MvccChains
  import opened MvccRuns
  import opened MvccTheorems

  // ------------------------------------------------------------- versions are commits

  predicate Writes(c: CommitRecord, v: RowVersion, k: LogicalKey) {
    c.index == v.commit && k in c.writes && c.writes[k] == v.row
  }

  /** Every version of a row was written by a recorded commit. */
  ghost predicate Recalled(p: Past, v: RowVersion, k: LogicalKey) {
    exists i :: 0 <= i < |p.commits| && Writes(p.commits[i], v, k)
  }

  ghost predicate Versioned(e: Engine, p: Past) {
    forall k, i {:trigger Rows(e.primary, k)[i]} ::
      0 <= i < |Rows(e.primary, k)| ==> Recalled(p, Rows(e.primary, k)[i], k)
  }

  lemma CommitVersioned(e: Engine, p: Past, g: Engine, a: Attempt, c: Catalog, q: Past)
    requires Inv(e, p) && Versioned(e, p) && Committing(e, g, a, c)
    requires q.commits == p.commits + [CommitRecord(e.lastApplied + 1, a.readTs, WritesOf(a.writes))]
    ensures Versioned(g, q)
  {
    hide CommitsOk, IndexesOk, ServedOk, Commit, ValidateAttempt, WritesOf;
    forall k, i | 0 <= i < |Rows(g.primary, k)| ensures Recalled(q, Rows(g.primary, k)[i], k) {
      CommittingRows(e, g, a, c, k);
      var vs, was := Rows(g.primary, k), Rows(e.primary, k);
      var n := |vs| - |was|;
      if i < n {
        assert Writes(q.commits[|p.commits|], vs[i], k);
      } else {
        assert vs[i] == was[i - n];
        StillRecalled(p, q, was[i - n], k);
      }
    }
  }

  lemma StillRecalled(p: Past, q: Past, v: RowVersion, k: LogicalKey)
    requires Recalled(p, v, k) && p.commits <= q.commits
    ensures Recalled(q, v, k)
  {
    var i :| 0 <= i < |p.commits| && Writes(p.commits[i], v, k);
    assert q.commits[i] == p.commits[i];
  }

  lemma SameVersions(e: Engine, p: Past, g: Engine, q: Past)
    requires Versioned(e, p) && q.commits == p.commits && forall k :: Rows(g.primary, k) <= Rows(e.primary, k)
    ensures Versioned(g, q)
  {
    forall k, i | 0 <= i < |Rows(g.primary, k)| ensures Recalled(q, Rows(g.primary, k)[i], k) {
      assert Rows(g.primary, k) <= Rows(e.primary, k);
      assert Rows(g.primary, k)[i] == Rows(e.primary, k)[i];
      StillRecalled(p, q, Rows(e.primary, k)[i], k);
    }
  }

  lemma StepVersioned(e: Engine, p: Past, c: Command)
    requires Inv(e, p) && Versioned(e, p)
    ensures Versioned(Step(e, c).0, Recorded(p, e, c))
  {
    hide Inv, Versioned, Commit, ValidateAttempt, Canonical, WritesOf, NewIndexes;
    var g, q := Step(e, c).0, Recorded(p, e, c);
    if IsNew(e, c) && ValidateAttempt(e, c.attempt).Ok? {
      var d := ValidateAttempt(e, c.attempt).value;
      CommitFrame(e, c.index, c.attempt, d);
      assert Committing(e, g, c.attempt, d);
      CommitVersioned(e, p, g, c.attempt, d, q);
    } else if c.Sweep? && Vacuum(e, c.retainFrom).Ok? {
      VacuumChains(e, c.retainFrom, g);
      forall k ensures Rows(g.primary, k) <= Rows(e.primary, k) {
        VacuumRowsPrefix(Rows(e.primary, k), g.retainedFloor);
      }
      SameVersions(e, p, g, q);
    } else {
      assert g.primary == e.primary && q.commits == p.commits;
      SameVersions(e, p, g, q);
    }
  }

  lemma {:induction false} RunVersioned(e: Engine, p: Past, cs: seq<Command>)
    requires Inv(e, p) && Versioned(e, p)
    ensures Versioned(Run(e, cs), History(p, e, cs))
    decreases |cs|
  {
    hide Inv, Versioned, Step, Recorded;
    if cs != [] {
      StepKeeps(e, p, cs[0]);
      StepVersioned(e, p, cs[0]);
      RunVersioned(Step(e, cs[0]).0, Recorded(p, e, cs[0]), cs[1..]);
    }
  }

  lemma ReachedVersioned(cs: seq<Command>)
    ensures Inv(After(cs), PastOf(cs)) && Versioned(After(cs), PastOf(cs))
  {
    hide Inv, Run, History;
    FreshInv();
    Reached(cs);
    assert Versioned(Fresh(), DAWN) by { NothingStored(); }
    RunVersioned(Fresh(), DAWN, cs);
  }

  lemma NothingStored()
    ensures Versioned(Fresh(), DAWN)
  {
  }

  // --------------------------------------------------------------------- conflicts

  /** The last commit that wrote a key, or zero. */
  function LastWriter(commits: seq<CommitRecord>, k: LogicalKey): nat
    decreases |commits|
  {
    if commits == [] then 0
    else if k in commits[|commits| - 1].writes then commits[|commits| - 1].index
    else LastWriter(commits[..|commits| - 1], k)
  }

  lemma {:induction false} LastWriterIsLast(commits: seq<CommitRecord>, k: LogicalKey)
    requires forall i, j :: 0 <= i < j < |commits| ==> commits[i].index < commits[j].index
    ensures forall i :: 0 <= i < |commits| && k in commits[i].writes ==> commits[i].index <= LastWriter(commits, k)
    ensures LastWriter(commits, k) > 0 ==>
              exists i :: 0 <= i < |commits| && k in commits[i].writes && commits[i].index == LastWriter(commits, k)
    decreases |commits|
  {
    if commits != [] {
      var n := |commits| - 1;
      var before := commits[..n];
      LastWriterIsLast(before, k);
      forall i | 0 <= i < |commits| && k in commits[i].writes ensures commits[i].index <= LastWriter(commits, k) {
        if i < n {
          assert before[i] == commits[i] && commits[i].index < commits[n].index;
        }
      }
      if k in commits[n].writes {
        assert commits[n].index == LastWriter(commits, k);
      } else if LastWriter(commits, k) > 0 {
        var i :| 0 <= i < |before| && k in before[i].writes && before[i].index == LastWriter(before, k);
        assert commits[i] == before[i];
      }
    }
  }

  /** Above the floor, a chain's head is the last commit to its key. */
  lemma HeadIsLastWriter(e: Engine, p: Past, k: LogicalKey, ts: nat)
    requires Inv(e, p) && Versioned(e, p) && e.retainedFloor <= ts
    ensures var vs := Rows(e.primary, k);
            && (vs != [] && vs[0].commit > ts <==> LastWriter(p.commits, k) > ts)
            && (vs != [] && vs[0].commit > ts ==> vs[0].commit == LastWriter(p.commits, k))
  {
    hide ChainsOk, IndexesOk, ServedOk, ReadsFold, FirstWins, LastWriter;
    LastWriterIsLast(p.commits, k);
    var vs, last := Rows(e.primary, k), LastWriter(p.commits, k);
    if vs != [] {
      assert Recalled(p, vs[0], k);
      var i :| 0 <= i < |p.commits| && Writes(p.commits[i], vs[0], k);
      assert p.commits[i].index <= last;
    }
    if last > ts {
      var i :| 0 <= i < |p.commits| && k in p.commits[i].writes && p.commits[i].index == last;
      assert HeadCovers(e, p.commits[i], k);
    }
  }

  // ------------------------------------------------------------- catalog mutations

  predicate TableNamed(c: Catalog, ms: seq<CatalogMutation>, n: nat, id: TableId, name: string)
    requires n <= |ms|
  {
    || id in c.tables || (exists i :: i in c.tables && c.tables[i].name == name)
    || exists j :: 0 <= j < n && ms[j].CreateTable? && (ms[j].tableMeta.id == id || ms[j].tableMeta.name == name)
  }

  predicate IndexNamed(c: Catalog, ms: seq<CatalogMutation>, n: nat, id: IndexId, name: string)
    requires n <= |ms|
  {
    || id in c.indexes || (exists i :: i in c.indexes && c.indexes[i].name == name)
    || exists j :: 0 <= j < n && ms[j].CreateIndex? && (ms[j].indexMeta.id == id || ms[j].indexMeta.name == name)
  }

  predicate HasColumn(c: Catalog, ms: seq<CatalogMutation>, n: nat, table: TableId, column: nat)
    requires n <= |ms|
  {
    || (table in c.tables && column < |c.tables[table].columns|)
    || exists j :: 0 <= j < n && ms[j].CreateTable? && ms[j].tableMeta.id == table && column < |ms[j].tableMeta.columns|
  }

  /** The `i`-th mutation can be made once the earlier ones are: identifier and name are
      new, a table's schema is sound, an index's column exists. */
  predicate Creatable(c: Catalog, ms: seq<CatalogMutation>, i: nat)
    requires i < |ms|
  {
    match ms[i]
    case CreateTable(t) =>
      t.id != 0 && SchemaOk(t.columns, t.primaryKeyColumn) && !TableNamed(c, ms, i, t.id, t.name)
    case CreateIndex(x) =>
      x.id != 0 && !IndexNamed(c, ms, i, x.id, x.name) && HasColumn(c, ms, i, x.table, x.column)
  }

  predicate AllCreatable(c: Catalog, ms: seq<CatalogMutation>) {
    forall i :: 0 <= i < |ms| ==> Creatable(c, ms, i)
  }

  lemma CreateOneExactly(c: Catalog, ms: seq<CatalogMutation>)
    requires ms != []
    ensures CreateOne(c, ms[0]).Some? <==> Creatable(c, ms, 0)
  {
  }

  lemma CreatableShift(c: Catalog, d: Catalog, ms: seq<CatalogMutation>, i: nat)
    requires ms != [] && CreateOne(c, ms[0]) == Some(d) && i < |ms| - 1
    ensures Creatable(d, ms[1..], i) <==> Creatable(c, ms, i + 1)
  {
    hide SchemaOk;
    var rest := ms[1..];
    assert forall j :: 0 <= j < |rest| ==> rest[j] == ms[j + 1];
    match rest[i]
    case CreateTable(t) => NamedShift(c, d, ms, i, t.id, t.name);
    case CreateIndex(x) =>
      IndexShift(c, d, ms, i, x.id, x.name);
      ColumnShift(c, d, ms, i, x.table, x.column);
  }

  lemma NamedShift(c: Catalog, d: Catalog, ms: seq<CatalogMutation>, n: nat, id: TableId, name: string)
    requires ms != [] && CreateOne(c, ms[0]) == Some(d) && n < |ms|
    ensures TableNamed(d, ms[1..], n, id, name) <==> TableNamed(c, ms, n + 1, id, name)
  {
    hide SchemaOk;
    var rest := ms[1..];
    if TableNamed(d, rest, n, id, name) {
      if j :| 0 <= j < n && rest[j].CreateTable? && (rest[j].tableMeta.id == id || rest[j].tableMeta.name == name) {
        assert ms[j + 1] == rest[j];
      } else if ms[0].CreateTable? && (id == ms[0].tableMeta.id || name == ms[0].tableMeta.name) {
        assert ms[0].CreateTable?;
      }
    }
    if TableNamed(c, ms, n + 1, id, name) {
      if j :| 0 <= j < n + 1 && ms[j].CreateTable? && (ms[j].tableMeta.id == id || ms[j].tableMeta.name == name) {
        if j > 0 {
          assert rest[j - 1] == ms[j];
        } else {
          assert d.tables[ms[0].tableMeta.id] == ms[0].tableMeta;
        }
      } else if i :| i in c.tables && c.tables[i].name == name {
        assert d.tables[i] == c.tables[i];
      }
    }
  }

  lemma IndexShift(c: Catalog, d: Catalog, ms: seq<CatalogMutation>, n: nat, id: IndexId, name: string)
    requires ms != [] && CreateOne(c, ms[0]) == Some(d) && n < |ms|
    ensures IndexNamed(d, ms[1..], n, id, name) <==> IndexNamed(c, ms, n + 1, id, name)
  {
    hide SchemaOk;
    var rest := ms[1..];
    if IndexNamed(d, rest, n, id, name) {
      if j :| 0 <= j < n && rest[j].CreateIndex? && (rest[j].indexMeta.id == id || rest[j].indexMeta.name == name) {
        assert ms[j + 1] == rest[j];
      } else if ms[0].CreateIndex? && (id == ms[0].indexMeta.id || name == ms[0].indexMeta.name) {
        assert ms[0].CreateIndex?;
      }
    }
    if IndexNamed(c, ms, n + 1, id, name) {
      if j :| 0 <= j < n + 1 && ms[j].CreateIndex? && (ms[j].indexMeta.id == id || ms[j].indexMeta.name == name) {
        if j > 0 {
          assert rest[j - 1] == ms[j];
        } else {
          assert d.indexes[ms[0].indexMeta.id] == ms[0].indexMeta;
        }
      } else if i :| i in c.indexes && c.indexes[i].name == name {
        assert d.indexes[i] == c.indexes[i];
      }
    }
  }

  lemma ColumnShift(c: Catalog, d: Catalog, ms: seq<CatalogMutation>, n: nat, table: TableId, column: nat)
    requires ms != [] && CreateOne(c, ms[0]) == Some(d) && n < |ms|
    ensures HasColumn(d, ms[1..], n, table, column) <==> HasColumn(c, ms, n + 1, table, column)
  {
    hide SchemaOk;
    var rest := ms[1..];
    if j :| 0 <= j < n && rest[j].CreateTable? && rest[j].tableMeta.id == table
            && column < |rest[j].tableMeta.columns| {
      assert ms[j + 1] == rest[j];
    }
    if j :| 0 <= j < n + 1 && ms[j].CreateTable? && ms[j].tableMeta.id == table && column < |ms[j].tableMeta.columns| {
      if j > 0 {
        assert rest[j - 1] == ms[j];
      } else {
        assert d.tables[table] == ms[0].tableMeta;
      }
    }
  }

  predicate Creates(ms: seq<CatalogMutation>, m: CatalogMutation) {
    exists i :: 0 <= i < |ms| && ms[i] == m
  }

  /** The old tables and indexes, and the new ones. */
  ghost predicate Grown(c: Catalog, ms: seq<CatalogMutation>, d: Catalog) {
    && (forall i {:trigger d.tables[i]} {:trigger i in d.tables} :: i in d.tables ==>
          || (i in c.tables && d.tables[i] == c.tables[i])
          || (d.tables[i].id == i && Creates(ms, CreateTable(d.tables[i]))))
    && (forall i {:trigger i in c.tables} :: i in c.tables ==> i in d.tables && d.tables[i] == c.tables[i])
    && (forall i {:trigger d.indexes[i]} {:trigger i in d.indexes} :: i in d.indexes ==>
          || (i in c.indexes && d.indexes[i] == c.indexes[i])
          || (d.indexes[i].id == i && Creates(ms, CreateIndex(d.indexes[i]))))
    && (forall i {:trigger i in c.indexes} :: i in c.indexes ==> i in d.indexes && d.indexes[i] == c.indexes[i])
    && (forall i {:trigger ms[i]} :: 0 <= i < |ms| ==> Holds(d, ms[i]))
  }

  lemma {:induction false} CreateAllExactly(c: Catalog, ms: seq<CatalogMutation>)
    ensures CreateAll(c, ms).Some? <==> AllCreatable(c, ms)
    ensures CreateAll(c, ms).Some? ==>
              Grown(c, ms, CreateAll(c, ms).value) && CreateAll(c, ms).value.schemaEpoch == c.schemaEpoch
    decreases |ms|
  {
    hide SchemaOk, Creatable, CreateOne, Grown;
    if ms == [] {
      GrownByNothing(c);
    } else {
      CreateOneExactly(c, ms);
      if CreateOne(c, ms[0]).Some? {
        var d, rest := CreateOne(c, ms[0]).value, ms[1..];
        CreateAllExactly(d, rest);
        forall i | 0 <= i < |rest| ensures Creatable(d, rest, i) <==> Creatable(c, ms, i + 1) {
          CreatableShift(c, d, ms, i);
        }
        if AllCreatable(d, rest) {
          forall i | 0 <= i < |ms| ensures Creatable(c, ms, i) {
            assert i > 0 ==> Creatable(d, rest, i - 1);
          }
          GrownFirst(c, ms, d, CreateAll(d, rest).value);
        }
      }
    }
  }

  lemma GrownByNothing(c: Catalog)
    ensures Grown(c, [], c)
  {
  }

  /** A mutation's own entry is in the catalog. */
  predicate Holds(d: Catalog, m: CatalogMutation) {
    match m
    case CreateTable(t) => t.id in d.tables && d.tables[t.id] == t
    case CreateIndex(x) => x.id in d.indexes && d.indexes[x.id] == x
  }

  lemma OneCreated(c: Catalog, m: CatalogMutation, d: Catalog)
    requires CreateOne(c, m) == Some(d)
    ensures Holds(d, m) && d.schemaEpoch == c.schemaEpoch
    ensures forall i {:trigger i in c.tables} :: i in c.tables ==> i in d.tables && d.tables[i] == c.tables[i]
    ensures forall i {:trigger i in c.indexes} :: i in c.indexes ==> i in d.indexes && d.indexes[i] == c.indexes[i]
    ensures forall i {:trigger i in d.tables} :: i in d.tables && i !in c.tables ==>
              m == CreateTable(d.tables[i]) && d.tables[i].id == i
    ensures forall i {:trigger i in d.indexes} :: i in d.indexes && i !in c.indexes ==>
              m == CreateIndex(d.indexes[i]) && d.indexes[i].id == i
  {
    hide SchemaOk;
  }

  lemma GrownFirst(c: Catalog, ms: seq<CatalogMutation>, d: Catalog, f: Catalog)
    requires ms != [] && CreateOne(c, ms[0]) == Some(d) && Grown(d, ms[1..], f)
    ensures Grown(c, ms, f) && d.schemaEpoch == c.schemaEpoch
  {
    hide CreateOne;
    var rest := ms[1..];
    OneCreated(c, ms[0], d);
    forall m | Creates(rest, m) ensures Creates(ms, m) {
      var i :| 0 <= i < |rest| && rest[i] == m;
      assert ms[i + 1] == m;
    }
    assert Creates(ms, ms[0]) by { assert ms[0] == ms[0]; }
    forall i | 0 <= i < |ms| ensures Holds(f, ms[i]) {
      if i > 0 {
        assert Holds(f, rest[i - 1]);
      } else if ms[0].CreateTable? {
        assert ms[0].tableMeta.id in d.tables;
      } else {
        assert ms[0].indexMeta.id in d.indexes;
      }
    }
  }

  // ------------------------------------------------------------------------- writes

  /** A write suits a table: a key of the key column's type, a row of the table's shape that carries the key. */
  predicate Suits(t: TableMeta, w: TxnWrite) {
    && t.primaryKeyColumn < |t.columns| && !w.primaryKey.IsNull()
    && w.primaryKey.TypeTag() == t.columns[t.primaryKeyColumn].typeTag
    && (w.mutation.Put? ==> RowOk(t.columns, w.mutation.row) && w.mutation.row[t.primaryKeyColumn] == w.primaryKey)
  }

  /** The table is in the catalog or among the mutations. */
  predicate IsTable(c: Catalog, ms: seq<CatalogMutation>, id: TableId, t: TableMeta) {
    (id in c.tables && c.tables[id] == t) || (t.id == id && Creates(ms, CreateTable(t)))
  }

  ghost predicate Fits(c: Catalog, ms: seq<CatalogMutation>, w: TxnWrite) {
    exists t :: IsTable(c, ms, w.table, t) && Suits(t, w)
  }

  lemma FitsExactly(c: Catalog, ms: seq<CatalogMutation>, d: Catalog, w: TxnWrite)
    requires Grown(c, ms, d)
    ensures Fits(c, ms, w) <==> w.table in d.tables && Suits(d.tables[w.table], w)
  {
    hide Suits;
    if w.table in d.tables && Suits(d.tables[w.table], w) {
      assert IsTable(c, ms, w.table, d.tables[w.table]);
    }
    if Fits(c, ms, w) {
      var t :| IsTable(c, ms, w.table, t) && Suits(t, w);
      if Creates(ms, CreateTable(t)) {
        var i :| 0 <= i < |ms| && ms[i] == CreateTable(t);
        assert Holds(d, ms[i]);
      }
    }
  }

  /** Someone committed to the key after the snapshot. */
  ghost predicate Overwritten(commits: seq<CommitRecord>, readTs: nat, k: LogicalKey) {
    exists i :: 0 <= i < |commits| && k in commits[i].writes && commits[i].index > readTs
  }

  lemma OverwrittenExactly(e: Engine, p: Past, readTs: nat, k: LogicalKey)
    requires Inv(e, p)
    ensures Overwritten(p.commits, readTs, k) <==> LastWriter(p.commits, k) > readTs
  {
    hide ChainsOk, IndexesOk, ServedOk, ReadsFold, FirstWins, HeadCovers, LastWriter;
    LastWriterIsLast(p.commits, k);
  }

  /** A write goes through: it fits, and nobody committed to its key after the snapshot. */
  ghost predicate Passes(e: Engine, p: Past, a: Attempt, w: TxnWrite) {
    Fits(e.catalog, a.mutations, w) && !Overwritten(p.commits, a.readTs, w.Key())
  }

  /** Why a write does not go through. */
  ghost predicate Blocks(e: Engine, p: Past, a: Attempt, w: TxnWrite, reason: AbortReason) {
    && !Passes(e, p, a, w)
    && reason == if !Fits(e.catalog, a.mutations, w) then Validation
                 else WriteConflict(w.table, w.primaryKey, LastWriter(p.commits, w.Key()))
  }

  lemma CheckWriteExactly(e: Engine, p: Past, a: Attempt, d: Catalog, w: TxnWrite)
    requires Inv(e, p) && Versioned(e, p) && Grown(e.catalog, a.mutations, d) && e.retainedFloor <= a.readTs
    ensures CheckWrite(e, d, a.readTs, w).None? <==> Passes(e, p, a, w)
    ensures CheckWrite(e, d, a.readTs, w).Some? ==> Blocks(e, p, a, w, CheckWrite(e, d, a.readTs, w).value)
  {
    hide Inv, Versioned, Grown, Fits, Overwritten, LastWriter, RowOk;
    FitsExactly(e.catalog, a.mutations, d, w);
    OverwrittenExactly(e, p, a.readTs, w.Key());
    HeadIsLastWriter(e, p, w.Key(), a.readTs);
  }

  /** The first write that does not go through gives the reason. */
  ghost predicate FirstBlock(e: Engine, p: Past, a: Attempt, ws: seq<TxnWrite>, reason: AbortReason) {
    exists i :: 0 <= i < |ws| && Blocks(e, p, a, ws[i], reason) && AllPass(e, p, a, ws[..i])
  }

  ghost predicate AllPass(e: Engine, p: Past, a: Attempt, ws: seq<TxnWrite>) {
    forall i :: 0 <= i < |ws| ==> Passes(e, p, a, ws[i])
  }

  lemma {:induction false} CheckWritesExactly(e: Engine, p: Past, a: Attempt, d: Catalog, ws: seq<TxnWrite>)
    requires Inv(e, p) && Versioned(e, p) && Grown(e.catalog, a.mutations, d) && e.retainedFloor <= a.readTs
    ensures CheckWrites(e, d, a.readTs, ws).None? <==> AllPass(e, p, a, ws)
    ensures CheckWrites(e, d, a.readTs, ws).Some? ==> FirstBlock(e, p, a, ws, CheckWrites(e, d, a.readTs, ws).value)
    decreases |ws|
  {
    hide Inv, Versioned, Grown, CheckWrite, Passes, Blocks;
    if ws != [] {
      var w, rest := ws[0], ws[1..];
      CheckWriteExactly(e, p, a, d, w);
      match CheckWrite(e, d, a.readTs, w)
      case Some(reason) =>
        assert Blocks(e, p, a, ws[0], reason) && AllPass(e, p, a, ws[..0]);
      case None =>
        CheckWritesExactly(e, p, a, d, rest);
        PassFirst(e, p, a, ws);
        if CheckWrites(e, d, a.readTs, rest).Some? {
          BlockLater(e, p, a, ws, CheckWrites(e, d, a.readTs, rest).value);
        }
    }
  }

  lemma PassFirst(e: Engine, p: Past, a: Attempt, ws: seq<TxnWrite>)
    requires ws != []
    ensures AllPass(e, p, a, ws) <==> Passes(e, p, a, ws[0]) && AllPass(e, p, a, ws[1..])
  {
    hide Passes;
    var rest := ws[1..];
    if AllPass(e, p, a, ws) {
      forall i | 0 <= i < |rest| ensures Passes(e, p, a, rest[i]) {
        assert Passes(e, p, a, ws[i + 1]);
      }
    }
    if Passes(e, p, a, ws[0]) && AllPass(e, p, a, rest) {
      forall i | 0 <= i < |ws| ensures Passes(e, p, a, ws[i]) {
        assert i > 0 ==> Passes(e, p, a, rest[i - 1]);
      }
    }
  }

  lemma BlockLater(e: Engine, p: Past, a: Attempt, ws: seq<TxnWrite>, reason: AbortReason)
    requires ws != [] && Passes(e, p, a, ws[0]) && FirstBlock(e, p, a, ws[1..], reason)
    ensures FirstBlock(e, p, a, ws, reason)
  {
    hide Passes, Blocks, AllPass;
    var rest := ws[1..];
    var i :| 0 <= i < |rest| && Blocks(e, p, a, rest[i], reason) && AllPass(e, p, a, rest[..i]);
    assert ws[i + 1] == rest[i];
    PassFirst(e, p, a, ws[..i + 1]);
    assert ws[..i + 1][1..] == rest[..i];
  }

  // --------------------------------------------------------------------- the decision

  /** What a new request must meet to commit. */
  ghost predicate Acceptable(e: Engine, p: Past, a: Attempt) {
    && e.retainedFloor <= a.readTs <= e.lastApplied && a.schemaEpoch == e.catalog.schemaEpoch
    && AllCreatable(e.catalog, a.mutations) && AllPass(e, p, a, a.writes)
  }

  /** Why it aborts otherwise: the first of these that holds. */
  ghost predicate AbortsFor(e: Engine, p: Past, a: Attempt, reason: AbortReason) {
    if a.readTs < e.retainedFloor then reason == SnapshotVacuumed(a.readTs, e.retainedFloor)
    else if a.readTs > e.lastApplied then reason == Validation
    else if a.schemaEpoch != e.catalog.schemaEpoch then reason == SchemaChanged(a.schemaEpoch, e.catalog.schemaEpoch)
    else if !AllCreatable(e.catalog, a.mutations) then reason == Validation
    else FirstBlock(e, p, a, a.writes, reason)
  }

  lemma ValidateExactly(e: Engine, p: Past, a: Attempt)
    requires Inv(e, p) && Versioned(e, p) && Canonical(a)
    ensures ValidateAttempt(e, a).Ok? <==> Acceptable(e, p, a)
    ensures ValidateAttempt(e, a).Err? ==> AbortsFor(e, p, a, ValidateAttempt(e, a).error)
    ensures ValidateAttempt(e, a).Ok? ==>
              var d := ValidateAttempt(e, a).value;
              && Grown(e.catalog, a.mutations, d)
              && d.schemaEpoch == e.catalog.schemaEpoch + if a.mutations == [] then 0 else 1
  {
    hide Inv, Versioned, Canonical, CheckWrites, AllCreatable, AllPass, FirstBlock, Grown, CreateAll;
    CreateAllExactly(e.catalog, a.mutations);
    if CreateAll(e.catalog, a.mutations).Some? {
      var d := ApplyMutations(e.catalog, a.mutations).value;
      GrownEpoch(e.catalog, a.mutations, CreateAll(e.catalog, a.mutations).value, d);
      if e.retainedFloor <= a.readTs {
        CheckWritesExactly(e, p, a, d, a.writes);
      }
    }
  }

  lemma GrownEpoch(c: Catalog, ms: seq<CatalogMutation>, d: Catalog, f: Catalog)
    requires Grown(c, ms, d) && f.tables == d.tables && f.indexes == d.indexes
    ensures Grown(c, ms, f)
  {
  }

  // -------------------------------------------------------------------------- theorems

  lemma RunOne(cs: seq<Command>, c: Command)
    ensures After(cs + [c]) == Step(After(cs), c).0
    ensures PastOf(cs + [c]) == Recorded(PastOf(cs), After(cs), c)
  {
    hide Step, Recorded;
    RunSplit(Fresh(), DAWN, cs, [c]);
    assert [c][1..] == [];
  }

  /** Admission, from what the client was served before: its next request is evaluated, its
      last one is answered again, everything else is refused, each for its reason. */
  lemma AdmissionExactly(cs: seq<Command>, c: Command)
    requires c.Txn? && c.index == After(cs).lastApplied + 1 && Canonical(c.attempt)
    ensures var t, n := Trace(PastOf(cs), c.attempt.client), c.attempt.sequence;
            && Step(After(cs), c).1.Some?
            && var outcome := Step(After(cs), c).1.value;
               if n == |t| + 1 then outcome.Applied?
               else if t == [] then outcome == Rejected(FirstSequenceMustBeOne(n))
               else if n > |t| then outcome == Rejected(SequenceGap(|t| + 1, n))
               else if n < |t| then outcome == Rejected(SequenceTooOld(|t|, n))
               else if c.requestHash == t[n - 1].hash then outcome == Duplicate(t[n - 1].result)
               else outcome == Rejected(SequenceHashMismatch(n))
  {
    hide After, PastOf, Canonical, Evaluate, ChainsOk, CommitsOk, IndexesOk;
    Reached(cs);
    assert ServedOk(After(cs), PastOf(cs), c.attempt.client);
  }

  lemma NewExactly(cs: seq<Command>, c: Command)
    requires c.Txn? && c.index == After(cs).lastApplied + 1 && Canonical(c.attempt)
    ensures IsNew(After(cs), c) <==> c.attempt.sequence == |Trace(PastOf(cs), c.attempt.client)| + 1
  {
    hide After, PastOf, Canonical, ChainsOk, CommitsOk, IndexesOk;
    Reached(cs);
    assert ServedOk(After(cs), PastOf(cs), c.attempt.client);
  }

  /** The commit decision, over every run: a client's next request commits exactly when its
      snapshot is neither vacuumed nor ahead, its epoch is current, its mutations can be
      made, every write fits its table and nobody committed to a written key after the
      snapshot; otherwise it aborts for the first of these that fails. */
  lemma CommitsExactly(cs: seq<Command>, c: Command) returns (result: CommitResult)
    requires c.Txn? && c.index == After(cs).lastApplied + 1 && Canonical(c.attempt)
    requires c.attempt.sequence == |Trace(PastOf(cs), c.attempt.client)| + 1
    ensures Step(After(cs), c).1 == Some(Applied(result))
    ensures result.Committed? <==> Acceptable(After(cs), PastOf(cs), c.attempt)
    ensures result.Committed? ==>
              result == Committed(c.index, |c.attempt.writes|,
                                  After(cs).catalog.schemaEpoch + if c.attempt.mutations == [] then 0 else 1)
    ensures result.Aborted? ==>
              result.abortIndex == c.index && AbortsFor(After(cs), PastOf(cs), c.attempt, result.reason)
  {
    hide After, PastOf, Canonical, Commit, ValidateAttempt, Inv, Versioned, Acceptable, AbortsFor;
    NewExactly(cs, c);
    ReachedVersioned(cs);
    ValidateExactly(After(cs), PastOf(cs), c.attempt);
    result := Evaluate(After(cs), c.index, c.attempt).1;
  }

  /** What a list of writes leaves under a key, write by write. */
  lemma {:induction false} WrittenRow(ws: seq<TxnWrite>, i: nat)
    requires DistinctKeys(ws) && i < |ws|
    ensures ws[i].Key() in WritesOf(ws) && WritesOf(ws)[ws[i].Key()] == ws[i].NewRow()
    decreases |ws|
  {
    if i > 0 {
      assert ws[1..][i - 1] == ws[i] && ws[0].Key() != ws[i].Key();
      WrittenRow(ws[1..], i - 1);
    }
  }

  predicate WritesKey(ws: seq<TxnWrite>, k: LogicalKey) {
    exists i :: 0 <= i < |ws| && ws[i].Key() == k
  }

  /** What the decision does: a commit shows each written row from its own index on, leaves
      every other key as it was and grows the catalog by the mutations; an abort leaves all. */
  lemma CommitsTakeEffect(cs: seq<Command>, c: Command, result: CommitResult)
    requires c.Txn? && c.index == After(cs).lastApplied + 1 && Step(After(cs), c).1 == Some(Applied(result))
    ensures var e, f, a := After(cs), After(cs + [c]), c.attempt;
            && f.lastApplied == c.index && f.retainedFloor == e.retainedFloor
            && (result.Committed? ==>
                  && Grown(e.catalog, a.mutations, f.catalog) && f.catalog.schemaEpoch == result.schemaEpoch
                  && (forall i :: 0 <= i < |a.writes| ==> Read(f, a.writes[i].Key(), c.index) == a.writes[i].NewRow())
                  && (forall k, ts: nat {:trigger Read(f, k, ts)} :: !WritesKey(a.writes, k) || ts < c.index ==>
                        Read(f, k, ts) == Read(e, k, ts)))
            && (result.Aborted? ==>
                  f.primary == e.primary && f.secondary == e.secondary && f.catalog == e.catalog)
  {
    hide After, PastOf, Canonical, Commit, ValidateAttempt, Inv, Versioned, Read, Grown, WritesOf;
    var e, a := After(cs), c.attempt;
    RunOne(cs, c);
    var f := After(cs + [c]);
    assert IsNew(e, c);
    EvaluateFrame(e, c.index, a);
    if result.Committed? {
      var d := ValidateAttempt(e, a).value;
      ReachedVersioned(cs);
      ValidateExactly(e, PastOf(cs), a);
      CommitFrame(e, c.index, a, d);
      forall k, ts: nat
        ensures k in WritesOf(a.writes) <==> WritesKey(a.writes, k)
        ensures Read(f, k, ts)
                == if k in WritesOf(a.writes) && c.index <= ts then WritesOf(a.writes)[k] else Read(e, k, ts) {
        CommitRead(e, c.index, a, d, k, ts);
        WritesOfKeys(a.writes, k);
        SameRows(f, Commit(e, c.index, a, d), k, ts);
      }
      forall i | 0 <= i < |a.writes| ensures Read(f, a.writes[i].Key(), c.index) == a.writes[i].NewRow() {
        CanonicalDistinct(a);
        WrittenRow(a.writes, i);
        assert WritesKey(a.writes, a.writes[i].Key());
      }
    }
  }

  lemma SameRows(e: Engine, f: Engine, k: LogicalKey, ts: nat)
    requires e.primary == f.primary
    ensures Read(e, k, ts) == Read(f, k, ts)
  {
  }

  /** The history of commits is the requests answered with a commit, each with its index, its
      snapshot and its rows. */
  lemma CommitsAreRecorded(cs: seq<Command>, c: Command)
    ensures var p, q := PastOf(cs).commits, PastOf(cs + [c]).commits;
            if c.Txn? && c.index > After(cs).lastApplied && Step(After(cs), c).1.Some?
               && Step(After(cs), c).1.value.Applied? && Step(After(cs), c).1.value.result.Committed?
            then && |q| == |p| + 1 && p <= q && q[|p|].index == c.index && q[|p|].readTs == c.attempt.readTs
                 && (forall k :: k in q[|p|].writes <==> WritesKey(c.attempt.writes, k))
                 && (forall i :: 0 <= i < |c.attempt.writes| ==>
                       q[|p|].writes[c.attempt.writes[i].Key()] == c.attempt.writes[i].NewRow())
            else q == p
  {
    hide After, PastOf, Canonical, Commit, ValidateAttempt, WritesOf, NewIndexes;
    var e, p := After(cs), PastOf(cs);
    RunOne(cs, c);
    if IsNew(e, c) {
      var ws := c.attempt.writes;
      forall k ensures k in WritesOf(ws) <==> WritesKey(ws, k) {
        WritesOfKeys(ws, k);
      }
      CanonicalDistinct(c.attempt);
      forall i | 0 <= i < |ws| ensures ws[i].Key() in WritesOf(ws) && WritesOf(ws)[ws[i].Key()] == ws[i].NewRow() {
        WrittenRow(ws, i);
      }
    }
  }

  // ----------------------------------------------------------------- replays and gaps

  /** Whatever was applied last, another command at its index is answered with its outcome if
      it has its hash, a no-op only if that was one, and refused otherwise; nothing changes. */
  lemma ReplayExactly(e: Engine, d: Command, c: Command, outcome: Outcome)
    requires !d.Sweep? && Step(e, d).1 == Some(outcome) && !c.Sweep? && c.index == d.index
    ensures var f := Step(e, d).0;
            var same := (if c.Txn? then c.applyHash else c.hash) == (if d.Txn? then d.applyHash else d.hash);
            var fits := if c.Txn? then Canonical(c.attempt) else outcome == NoopApplied;
            Step(f, c) == (f, if same && fits then Some(outcome) else None)
  {
    hide Canonical, ValidateAttempt, Commit;
    if d.Txn? {
      EvaluateFrame(e, d.index, d.attempt);
    }
  }

  /** A command that is neither next nor a replay is refused, and nothing changes. */
  lemma GapsRefused(cs: seq<Command>, c: Command)
    requires !c.Sweep? && c.index != After(cs).lastApplied && c.index != After(cs).lastApplied + 1
    ensures Step(After(cs), c) == (After(cs), None) && After(cs + [c]) == After(cs) && PastOf(cs + [c]) == PastOf(cs)
  {
    hide After, PastOf, Canonical, Evaluate;
    RunOne(cs, c);
  }

  // -------------------------------------------------------------------- canonical form

  lemma WritesAscend(ws: seq<TxnWrite>)
    requires forall n :: 0 < n < |ws| ==> KeyLess(ws[n - 1].Key(), ws[n].Key())
    ensures ws != [] ==> forall w :: w in ws[1..] ==> KeyLess(ws[0].Key(), w.Key())
    ensures ws != [] ==> forall n :: 0 < n < |ws[1..]| ==> KeyLess(ws[1..][n - 1].Key(), ws[1..][n].Key())
  {
    if ws != [] {
      forall w | w in ws[1..] ensures KeyLess(ws[0].Key(), w.Key()) {
        var i :| 0 <= i < |ws[1..]| && ws[1..][i] == w;
        AscendingKeys(ws, 0, i + 1);
      }
    }
  }

  lemma KeyLessAsymmetric(a: LogicalKey, b: LogicalKey)
    requires KeyLess(a, b)
    ensures !KeyLess(b, a)
  {
    if KeyLess(b, a) {
      KeyLessTransitive(a, b, a);
      LessIrreflexive(a.primaryKey);
    }
  }

  lemma {:induction false} WritesUnique(a: seq<TxnWrite>, b: seq<TxnWrite>)
    requires forall n :: 0 < n < |a| ==> KeyLess(a[n - 1].Key(), a[n].Key())
    requires forall n :: 0 < n < |b| ==> KeyLess(b[n - 1].Key(), b[n].Key())
    requires forall w :: w in a <==> w in b
    ensures a == b
    decreases |a|
  {
    hide KeyLess, TxnWrite.Key;
    WritesAscend(a);
    WritesAscend(b);
    assert a != [] ==> a[0] in a;
    assert b != [] ==> b[0] in b;
    if a != [] && b != [] {
      var x, y, s, t := a[0], b[0], a[1..], b[1..];
      assert a == [x] + s && b == [y] + t && x in a && y in b;
      if x != y {
        KeyLessAsymmetric(x.Key(), y.Key());
        assert false;
      }
      forall w ensures w in s <==> w in t {
        assert w in a <==> w == x || w in s;
        assert w in b <==> w == x || w in t;
        if x in s || x in t {
          KeyLessAsymmetric(x.Key(), x.Key());
        }
      }
      WritesUnique(s, t);
    }
  }

  lemma {:induction false} MutationsAscend(ms: seq<CatalogMutation>, i: nat, j: nat)
    requires forall n :: 0 < n < |ms| ==> MutationLess(ms[n - 1], ms[n])
    requires i < j < |ms|
    ensures MutationLess(ms[i], ms[j])
    decreases j
  {
    if i < j - 1 {
      MutationsAscend(ms, i, j - 1);
    }
  }

  lemma MutationsAfterFirst(ms: seq<CatalogMutation>)
    requires forall n :: 0 < n < |ms| ==> MutationLess(ms[n - 1], ms[n])
    ensures ms != [] ==> forall m :: m in ms[1..] ==> MutationLess(ms[0], m)
    ensures ms != [] ==> forall n :: 0 < n < |ms[1..]| ==> MutationLess(ms[1..][n - 1], ms[1..][n])
  {
    if ms != [] {
      forall m | m in ms[1..] ensures MutationLess(ms[0], m) {
        var i :| 0 <= i < |ms[1..]| && ms[1..][i] == m;
        MutationsAscend(ms, 0, i + 1);
      }
    }
  }

  lemma {:induction false} MutationsUnique(a: seq<CatalogMutation>, b: seq<CatalogMutation>)
    requires forall n :: 0 < n < |a| ==> MutationLess(a[n - 1], a[n])
    requires forall n :: 0 < n < |b| ==> MutationLess(b[n - 1], b[n])
    requires forall m :: m in a <==> m in b
    ensures a == b
    decreases |a|
  {
    hide MutationLess;
    MutationsAfterFirst(a);
    MutationsAfterFirst(b);
    assert a != [] ==> a[0] in a;
    assert b != [] ==> b[0] in b;
    if a != [] && b != [] {
      var x, y, s, t := a[0], b[0], a[1..], b[1..];
      assert a == [x] + s && b == [y] + t && x in a && y in b;
      if x != y {
        MutationLessAsymmetric(x, y);
        assert false;
      }
      forall m ensures m in s <==> m in t {
        assert m in a <==> m == x || m in s;
        assert m in b <==> m == x || m in t;
        if x in s || x in t {
          MutationLessAsymmetric(x, x);
        }
      }
      MutationsUnique(s, t);
    }
  }

  lemma MutationLessAsymmetric(a: CatalogMutation, b: CatalogMutation)
    requires MutationLess(a, b)
    ensures !MutationLess(b, a)
  {
  }

  /** Canonical form is unique: attempts with the same header, writes and mutations are one. */
  lemma CanonicalUnique(a: Attempt, b: Attempt)
    requires Canonical(a) && Canonical(b) && a.(writes := [], mutations := []) == b.(writes := [], mutations := [])
    requires (forall w :: w in a.writes <==> w in b.writes) && (forall m :: m in a.mutations <==> m in b.mutations)
    ensures a == b
  {
    hide KeyLess, MutationLess, ValueFits;
    WritesUnique(a.writes, b.writes);
    MutationsUnique(a.mutations, b.mutations);
  }
}
