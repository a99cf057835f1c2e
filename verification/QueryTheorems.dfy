/** Queries over every run of the engine. */
module QueryTheorems {
  import opened Wrappers
  import opened Ordering
  import opened OrderedKeys
  import opened Mvcc
  import opened MvccChains
  import opened MvccRuns
  import opened MvccTheorems
  import SqlExpr
  import opened QueryPlan
  import opened Executor
  import opened PlanProofs
  import opened PlanTheorems
  import QueryAnswers

  // ------------------------------------------------------------ stored rows conform

  predicate RowFitsTable(c: Catalog, table: TableId, row: Row, sized: bool) {
    table in c.tables && RowFits(c.tables[table].columns, row, sized)
  }

  ghost predicate ChainConforms(e: Engine, k: LogicalKey, sized: bool) {
    forall i {:trigger Rows(e.primary, k)[i]} :: 0 <= i < |Rows(e.primary, k)| && Rows(e.primary, k)[i].row.Some? ==>
      RowFitsTable(e.catalog, k.table, Rows(e.primary, k)[i].row.value, sized)
  }

  ghost predicate StoreConforms(e: Engine, sized: bool) {
    forall k {:trigger ChainConforms(e, k, sized)} :: ChainConforms(e, k, sized)
  }

  /** The rows of an attempt can be encoded. */
  predicate Encodable(a: Attempt) {
    forall i :: 0 <= i < |a.writes| && a.writes[i].mutation.Put? ==> ValuesFit(a.writes[i].mutation.row)
  }

  predicate EncodableRun(cs: seq<Command>) {
    forall c :: c in cs && c.Txn? ==> Encodable(c.attempt)
  }

  /** Tables are created, never changed. */
  ghost predicate TablesStay(c: Catalog, d: Catalog) {
    forall i {:trigger i in c.tables} :: i in c.tables ==> i in d.tables && d.tables[i] == c.tables[i]
  }

  lemma {:induction false} CreateAllStays(c: Catalog, ms: seq<CatalogMutation>)
    requires CreateAll(c, ms).Some?
    ensures TablesStay(c, CreateAll(c, ms).value)
    decreases |ms|
  {
    if ms != [] {
      var d := CreateOne(c, ms[0]).value;
      assert TablesStay(c, d);
      CreateAllStays(d, ms[1..]);
    }
  }

  lemma {:induction false} CheckedWrite(e: Engine, c: Catalog, readTs: nat, ws: seq<TxnWrite>, i: nat)
    requires CheckWrites(e, c, readTs, ws).None? && i < |ws|
    ensures CheckWrite(e, c, readTs, ws[i]).None?
    decreases |ws|
  {
    if i > 0 {
      CheckedWrite(e, c, readTs, ws[1..], i - 1);
    }
  }

  lemma {:induction false} WriteSource(ws: seq<TxnWrite>, k: LogicalKey)
    requires k in WritesOf(ws)
    ensures exists i :: 0 <= i < |ws| && ws[i].Key() == k && WritesOf(ws)[k] == ws[i].NewRow()
    decreases |ws|
  {
    if ws[0].Key() != k {
      WriteSource(ws[1..], k);
      var i :| 0 <= i < |ws[1..]| && ws[1..][i].Key() == k && WritesOf(ws[1..])[k] == ws[1..][i].NewRow();
      assert ws[i + 1].Key() == k;
    } else {
      assert ws[0].Key() == k;
    }
  }

  /** A committed write fits the table it writes. */
  lemma WrittenConforms(e: Engine, a: Attempt, c: Catalog, k: LogicalKey, sized: bool)
    requires ValidateAttempt(e, a) == Ok(c) && k in WritesOf(a.writes) && WritesOf(a.writes)[k].Some?
    requires sized ==> Encodable(a)
    ensures RowFitsTable(c, k.table, WritesOf(a.writes)[k].value, sized)
  {
    hide RowOk, WritesOf, ApplyMutations, Canonical, ValuesFit;
    WriteSource(a.writes, k);
    var i :| 0 <= i < |a.writes| && a.writes[i].Key() == k && WritesOf(a.writes)[k] == a.writes[i].NewRow();
    CheckedWrite(e, c, a.readTs, a.writes, i);
  }

  lemma CommitConforms(e: Engine, index: nat, a: Attempt, c: Catalog, sized: bool)
    requires StoreConforms(e, sized) && ValidateAttempt(e, a) == Ok(c)
    requires sized ==> Encodable(a)
    ensures StoreConforms(Commit(e, index, a, c), sized)
  {
    hide RowOk, WritesOf, CheckWrites, ValuesFit, Backfill, ApplyWrites, Canonical;
    var f := Commit(e, index, a, c);
    CreateAllStays(e.catalog, a.mutations);
    forall k ensures ChainConforms(f, k, sized) {
      CommitRows(e, index, a, c, k);
      var was, now := Rows(e.primary, k), Rows(f.primary, k);
      assert ChainConforms(e, k, sized);
      if k in WritesOf(a.writes) && WritesOf(a.writes)[k].Some? {
        WrittenConforms(e, a, c, k, sized);
      }
      var n := |now| - |was|;
      forall i | 0 <= i < |now| && now[i].row.Some? ensures RowFitsTable(c, k.table, now[i].row.value, sized) {
        if i >= n {
          assert now[i] == was[i - n];
        }
      }
    }
  }

  lemma StepConforms(e: Engine, c: Command, sized: bool)
    requires StoreConforms(e, sized) && (sized && c.Txn? ==> Encodable(c.attempt))
    ensures StoreConforms(Step(e, c).0, sized)
  {
    hide ChainConforms, Commit, ValidateAttempt, Encodable;
    var f := Step(e, c).0;
    match c
    case Txn(index, _, requestHash, a) =>
      if index == e.lastApplied + 1 && Canonical(a) {
        var g := if ValidateAttempt(e, a).Ok? then Commit(e, index, a, ValidateAttempt(e, a).value) else e;
        if ValidateAttempt(e, a).Ok? {
          CommitConforms(e, index, a, ValidateAttempt(e, a).value, sized);
        }
        SameStore(if Admit(e, a.client, a.sequence, requestHash).New? then g else e, f, sized);
      }
    case Noop(_, _) => SameStore(e, f, sized);
    case Sweep(retainFrom) =>
      if retainFrom <= e.lastApplied {
        SweepConforms(e, retainFrom, sized);
      }
  }

  lemma SameStore(e: Engine, f: Engine, sized: bool)
    requires StoreConforms(e, sized) && f.primary == e.primary && f.catalog == e.catalog
    ensures StoreConforms(f, sized)
  {
    forall k ensures ChainConforms(f, k, sized) {
      assert ChainConforms(e, k, sized);
    }
  }

  lemma SweepConforms(e: Engine, retainFrom: nat, sized: bool)
    requires StoreConforms(e, sized) && Vacuum(e, retainFrom).Ok?
    ensures StoreConforms(Vacuum(e, retainFrom).value, sized)
  {
    var f := Vacuum(e, retainFrom).value;
    forall k ensures ChainConforms(f, k, sized) {
      assert ChainConforms(e, k, sized);
      VacuumRowsPrefix(Rows(e.primary, k), f.retainedFloor);
      assert Rows(f.primary, k) <= Rows(e.primary, k);
    }
  }

  /** In every run the stored versions of every row fit their table, and their values can
      be encoded if those of the run's attempts can. */
  lemma {:induction false} RunConforms(e: Engine, cs: seq<Command>, sized: bool)
    requires StoreConforms(e, sized) && (sized ==> EncodableRun(cs))
    ensures StoreConforms(Run(e, cs), sized)
    decreases |cs|
  {
    hide StoreConforms, Encodable, Step;
    if cs != [] {
      assert cs[0] in cs && forall c :: c in cs[1..] ==> c in cs;
      StepConforms(e, cs[0], sized);
      RunConforms(Step(e, cs[0]).0, cs[1..], sized);
    }
  }

  // ------------------------------------------------------------------ scans conform

  /** The rows a transaction has staged fit their tables, as staging checks. */
  ghost predicate OverlayConforms(c: Catalog, t: Transaction, sized: bool) {
    forall k {:trigger k in t.writes} :: k in t.writes && t.writes[k].NewRow().Some? ==>
                                           RowFitsTable(c, k.table, t.writes[k].NewRow().value, sized)
  }

  lemma {:induction false} VisibleIsStored(vs: seq<RowVersion>, ts: nat)
    requires VisibleRow(vs, ts).Some?
    ensures exists i :: 0 <= i < |vs| && vs[i].row == VisibleRow(vs, ts)
  {
    if vs[0].commit > ts {
      VisibleIsStored(vs[1..], ts);
      var i :| 0 <= i < |vs[1..]| && vs[1..][i].row == VisibleRow(vs[1..], ts);
      assert vs[i + 1].row == VisibleRow(vs, ts);
    } else {
      assert vs[0].row == VisibleRow(vs, ts);
    }
  }

  lemma ReadConforms(e: Engine, t: Transaction, k: LogicalKey, sized: bool)
    requires StoreConforms(e, sized) && OverlayConforms(e.catalog, t, sized) && ReadKey(e, t, k).Some?
    ensures RowFitsTable(e.catalog, k.table, ReadKey(e, t, k).value, sized)
  {
    if k !in t.writes {
      assert ChainConforms(e, k, sized);
      VisibleIsStored(Rows(e.primary, k), t.readTs);
      var i :| 0 <= i < |Rows(e.primary, k)| && Rows(e.primary, k)[i].row == VisibleRow(Rows(e.primary, k), t.readTs);
    }
  }

  lemma {:induction false} CollectConforms(e: Engine, t: Transaction, table: TableId, pks: seq<Bytes>,
                                           sized: bool)
    requires StoreConforms(e, sized) && OverlayConforms(e.catalog, t, sized) && table in e.catalog.tables
    ensures Conforming(Plain(Collect(e, t, table, pks, None)), e.catalog.tables[table].columns, sized)
    decreases |pks|
  {
    hide StoreConforms, OverlayConforms, ReadKey, RowFits;
    if pks != [] {
      CollectConforms(e, t, table, pks[1..], sized);
      var r := ReadKey(e, t, LogicalKey(table, pks[0]));
      var rest := Collect(e, t, table, pks[1..], None);
      if r.Some? {
        ReadConforms(e, t, LogicalKey(table, pks[0]), sized);
        assert ([r.value] + rest)[1..] == rest && Plain([r.value] + rest) == [ExecRow(r.value, [])] + Plain(rest);
      } else {
        assert [] + rest == rest;
      }
    }
  }

  // ------------------------------------------------------------------------ queries

  /** The predicate keeps the row. */
  predicate Kept(row: Option<Row>, x: SqlExpr.Expr, ps: seq<Value>) {
    row.Some? && SqlExpr.PredicateMatches(x, row.value, ps) == Ok(true)
  }

  /** The index asked for a value is no younger than the snapshot, or no visible row
      outside the overlay is one that the predicate keeps. */
  predicate FilterComplete(e: Engine, past: Past, t: Transaction, table: BoundTable, x: SqlExpr.Expr, ps: seq<Value>)
    requires ChooseIndex(table, x, e.catalog).Some?
  {
    var (index, con) := ChooseIndex(table, x, e.catalog).value;
    Narrowing(con, ps) && index.id in past.created && t.readTs < past.created[index.id] ==>
      forall k {:trigger k in e.primary} :: k in e.primary && Unwritten(e, t, table.meta.id, k.primaryKey)
                                            && k.table == table.meta.id ==>
        !Kept(Read(e, k, t.readTs), x, ps)
  }

  /** Every index access of the plan is complete. */
  predicate PlanComplete(e: Engine, past: Past, t: Transaction, p: LogicalPlan, ps: seq<Value>) {
    match p
    case Scan(_) => true
    case Filter(input, x) =>
      if input.Scan? && ChooseIndex(input.table, x, e.catalog).Some? then FilterComplete(e, past, t, input.table, x, ps)
      else PlanComplete(e, past, t, input, ps)
    case Join(left, right, _) => PlanComplete(e, past, t, left, ps) && PlanComplete(e, past, t, right, ps)
    case Aggregated(input, _, _) => PlanComplete(e, past, t, input, ps)
    case Sort(input, _) => PlanComplete(e, past, t, input, ps)
    case Limit(input, _) => PlanComplete(e, past, t, input, ps)
    case Project(input, _) => PlanComplete(e, past, t, input, ps)
  }

  lemma ChosenFiled(table: BoundTable, x: SqlExpr.Expr, c: Catalog)
    requires FiledById(c) && ChooseIndex(table, x, c).Some?
    ensures var index := ChooseIndex(table, x, c).value.0;
            index.id in c.indexes && c.indexes[index.id] == index && index.table == table.meta.id
  {
    hide ChooseIndex, Narrows, SqlExpr.Conjunct;
    ChosenIsProbe(table, x, c);
    var (index, con) := ChooseIndex(table, x, c).value;
    ChosenConjunct(table, x, c);
    var y, column :| SqlExpr.Conjunct(x, y) && Narrows(y, column, con) && column.table == table.meta.id
        && index in IndexesOf(c, table.meta.id);
    var xs, ids := IndexesOf(c, table.meta.id),
        SortedIds(set i | i in c.indexes && c.indexes[i].table == table.meta.id);
    var n :| 0 <= n < |xs| && xs[n] == index;
    assert ids[n] in ids;
  }

  /** What a filter keeps of the rows found at some keys. */
  function Found(e: Engine, t: Transaction, table: TableId, keys: set<Bytes>, x: SqlExpr.Expr,
                 ps: seq<Value>): ExecResult {
    FilterRows(Plain(Collect(e, t, table, Ordering.Sorted(keys), None)), x, ps)
  }

  lemma FoundStep(e: Engine, t: Transaction, table: TableId, keys: set<Bytes>, x: SqlExpr.Expr, ps: seq<Value>)
    requires keys != {} && !SqlExpr.ContainsAggregate(x)
    ensures var m := Least(keys);
            var r := ReadKey(e, t, LogicalKey(table, m));
            var all, rest := Found(e, t, table, keys, x, ps), Found(e, t, table, keys - {m}, x, ps);
            && (all.Ok? <==> rest.Ok? && (r.Some? ==> SqlExpr.PredicateMatches(x, r.value, ps).Ok?))
            && (all.Ok? ==> if Kept(r, x, ps) then all.value == [ExecRow(r.value, [])] + rest.value else all == rest)
  {
    hide ReadKey, SqlExpr.PredicateMatches, FilterRows, Collect, Plain;
    SortedStep(keys);
    CollectHead(e, t, table, Least(keys), Ordering.Sorted(keys - {Least(keys)}), x, ps);
    var rest := Found(e, t, table, keys - {Least(keys)}, x, ps);
    assert rest.Ok? ==> [] + rest.value == rest.value;
  }

  /** Fewer keys keep the same unless one of the others is kept. */
  lemma {:induction false} CollectKept(e: Engine, t: Transaction, table: TableId, all: set<Bytes>, part: set<Bytes>,
                                       x: SqlExpr.Expr, ps: seq<Value>)
    requires part <= all && !SqlExpr.ContainsAggregate(x) && Found(e, t, table, all, x, ps).Ok?
    ensures var a, b := Found(e, t, table, all, x, ps), Found(e, t, table, part, x, ps);
            && b.Ok? && |b.value| <= |a.value|
            && ((forall pk :: pk in all && pk !in part ==> !Kept(ReadKey(e, t, LogicalKey(table, pk)), x, ps)) ==>
                  a == b)
            && ((exists pk :: pk in all && pk !in part && Kept(ReadKey(e, t, LogicalKey(table, pk)), x, ps)) ==>
                  |b.value| < |a.value|)
    decreases |all|
  {
    hide ReadKey, SqlExpr.PredicateMatches, Found;
    if all != {} {
      var m := Least(all);
      FoundStep(e, t, table, all, x, ps);
      if m in part {
        LeastOfPart(all, part);
        FoundStep(e, t, table, part, x, ps);
        CollectKept(e, t, table, all - {m}, part - {m}, x, ps);
      } else {
        CollectKept(e, t, table, all - {m}, part, x, ps);
      }
    } else {
      assert part == {};
    }
  }

  lemma CollectHead(e: Engine, t: Transaction, table: TableId, pk: Bytes, rest: seq<Bytes>, x: SqlExpr.Expr,
                    ps: seq<Value>)
    requires !SqlExpr.ContainsAggregate(x)
    ensures var r := ReadKey(e, t, LogicalKey(table, pk));
            var all := FilterRows(Plain(Collect(e, t, table, [pk] + rest, None)), x, ps);
            var tail := FilterRows(Plain(Collect(e, t, table, rest, None)), x, ps);
            && (all.Ok? <==> tail.Ok? && (r.Some? ==> SqlExpr.PredicateMatches(x, r.value, ps).Ok?))
            && (all.Ok? ==> all.value == (if Kept(r, x, ps) then [ExecRow(r.value, [])] else []) + tail.value)
  {
    hide ReadKey;
    var r := ReadKey(e, t, LogicalKey(table, pk));
    assert ([pk] + rest)[1..] == rest;
    var rows := Collect(e, t, table, rest, None);
    if r.Some? {
      assert Collect(e, t, table, [pk] + rest, None) == [r.value] + rows;
      assert ([r.value] + rows)[1..] == rows && Plain([r.value] + rows)[1..] == Plain(rows);
      assert PredicateExec(x, ExecRow(r.value, []), ps) == SqlExpr.PredicateMatches(x, r.value, ps);
    } else {
      assert Collect(e, t, table, [pk] + rest, None) == [] + rows == rows;
    }
  }

  predicate FilterBound(table: BoundTable, x: SqlExpr.Expr) {
    table.offset == 0 && Bound(x, [table]) && !SqlExpr.ContainsAggregate(x)
  }

  /** An index asked for `v` finds the rows that carry it: the predicate keeps no others. */
  lemma NarrowedKeeps(e: Engine, table: BoundTable, x: SqlExpr.Expr, rows: seq<Row>, ps: seq<Value>, v: Value)
    requires ChooseIndex(table, x, e.catalog).Some? && FilterBound(table, x)
    requires var (_, con) := ChooseIndex(table, x, e.catalog).value; Narrowing(con, ps)
                                                                     && SqlExpr.Evaluate(con.bound, [], ps) == Ok(v)
    requires FilterRows(Plain(rows), x, ps).Ok?
    ensures var index := ChooseIndex(table, x, e.catalog).value.0; KeepsSame(RowsWith(rows, index.column,
          v), rows, x, ps)
  {
    hide ChooseIndex, FilterRows, RowsWith, Plain, SqlExpr.PredicateMatches;
    var index := ChooseIndex(table, x, e.catalog).value.0;
    forall row | row in rows && SqlExpr.PredicateMatches(x, row, ps) == Ok(true)
      ensures Cell(Some(row), index.column) == Some(v) {
      KeptRowsCarry(table, x, e.catalog, row, ps, v);
    }
    FilterFewer(rows, index.column, v, x, ps);
    FewerRows(rows, index.column, v);
  }

  /** An index access keeps what a scan keeps exactly when it is complete. */
  lemma FilterExactly(cs: seq<Command>, t: Transaction, table: BoundTable, x: SqlExpr.Expr, ps: seq<Value>)
    requires ChooseIndex(table, x, After(cs).catalog).Some? && FilterBound(table, x)
             && After(cs).retainedFloor <= t.readTs
    requires FilterRows(Plain(ScanTable(After(cs), t, table.meta.id)), x, ps).Ok?
    ensures FilterAgrees(After(cs), t, table, x, ps) <==> FilterComplete(After(cs), PastOf(cs), t, table, x, ps)
  {
    hide After, PastOf, ChooseIndex, FilterRows, ScanSecondary, ScanTable, RowsWith, Plain, Narrowing, CommitsOk,
         ServedOk, Bound;
    var e, past := After(cs), PastOf(cs);
    Reached(cs);
    assert FiledById(e.catalog) && past.created.Keys == e.catalog.indexes.Keys;
    ChosenFiled(table, x, e.catalog);
    var (index, con) := ChooseIndex(table, x, e.catalog).value;
    assert index.id in past.created;
    if Narrowing(con, ps) {
      NarrowingValue(con, ps);
      var v := SqlExpr.Evaluate(con.bound, [], ps).value;
      if past.created[index.id] <= t.readTs {
        IndexAgreement(cs, t, index, v);
        NarrowedKeeps(e, table, x, ScanTable(e, t, table.meta.id), ps, v);
      } else {
        OldFilterExactly(cs, t, table, x, ps, v);
      }
    }
  }

  lemma NarrowingValue(con: Constraint, ps: seq<Value>)
    requires Narrowing(con, ps)
    ensures SqlExpr.Evaluate(con.bound, [], ps).Ok? && !SqlExpr.Evaluate(con.bound, [], ps).value.IsNull()
  {
  }

  lemma OldFilterExactly(cs: seq<Command>, t: Transaction, table: BoundTable, x: SqlExpr.Expr, ps: seq<Value>, v: Value)
    requires ChooseIndex(table, x, After(cs).catalog).Some? && FilterBound(table, x)
             && After(cs).retainedFloor <= t.readTs
    requires FilterRows(Plain(ScanTable(After(cs), t, table.meta.id)), x, ps).Ok?
    requires var (index, con) := ChooseIndex(table, x, After(cs).catalog).value;
             && Narrowing(con, ps) && SqlExpr.Evaluate(con.bound, [], ps) == Ok(v) && !v.IsNull()
             && index.id in After(cs).catalog.indexes && After(cs).catalog.indexes[index.id] == index
                && index.table == table.meta.id
             && index.id in PastOf(cs).created && t.readTs < PastOf(cs).created[index.id]
    ensures FilterAgrees(After(cs), t, table, x, ps) <==> FilterComplete(After(cs), PastOf(cs), t, table, x, ps)
  {
    hide After, PastOf, ChooseIndex, FilterRows, ScanSecondary, RowsWith, Plain, Narrowing, Collect, Bound, Read, Kept;
    var e, id := After(cs), table.meta.id;
    var (index, con) := ChooseIndex(table, x, e.catalog).value;
    BeforeCreationOwnRows(cs, t, index, v);
    var own, all := OverlayKeys(t, id), StoredKeys(e, id) + OverlayKeys(t, id);
    CollectKept(e, t, id, all, own, x, ps);
    var mine, rows := OwnRows(e, t, id), ScanTable(e, t, id);
    NarrowedKeeps(e, table, x, mine, ps, v);
    CollectFewer(e, t, id, all, own, None);
    UnwrittenRead(e, t, id);
    assert FilterAgrees(e, t, table, x, ps) <==> FilterRows(Plain(mine), x, ps) == FilterRows(Plain(rows), x, ps);
    if FilterComplete(e, PastOf(cs), t, table, x, ps) {
      forall pk | pk in all && pk !in own ensures !Kept(ReadKey(e, t, LogicalKey(id, pk)), x, ps) {
        assert LogicalKey(id, pk) in e.primary && Unwritten(e, t, id, pk);
      }
    } else {
      var k :| k in e.primary && Unwritten(e, t, id, k.primaryKey) && k.table == id
          && Kept(Read(e, k, t.readTs), x, ps);
      assert k == LogicalKey(id, k.primaryKey) && k.primaryKey in all;
    }
  }

  /** Complete accesses agree. */
  lemma {:induction false} CompleteAgrees(cs: seq<Command>, t: Transaction, p: LogicalPlan, ps: seq<Value>)
    requires WellBound(p, After(cs).catalog) && After(cs).retainedFloor <= t.readTs
    requires PlanComplete(After(cs), PastOf(cs), t, p, ps) && Execute(After(cs), t, Naive(p), ps).Ok?
    ensures PlanAgrees(After(cs), t, p, ps)
    decreases p
  {
    hide After, PastOf, ChooseIndex, FilterRows, JoinRows, AggregateRows, SortRows, LimitRows, ProjectRows,
         FilterAgrees, FilterComplete, Bound, ScanTable, Plain, Tables;
    var e := After(cs);
    match p
    case Scan(_) =>
    case Filter(input, x) =>
      if input.Scan? && ChooseIndex(input.table, x, e.catalog).Some? {
        assert Naive(input) == SeqScan(input.table);
        FilterExactly(cs, t, input.table, x, ps);
      } else {
        CompleteAgrees(cs, t, input, ps);
      }
    case Join(left, right, _) =>
      CompleteAgrees(cs, t, left, ps);
      CompleteAgrees(cs, t, right, ps);
    case _ => CompleteAgrees(cs, t, p.input, ps);
  }

  lemma EveryTableConforms(e: Engine, t: Transaction, sized: bool)
    requires StoreConforms(e, sized) && OverlayConforms(e.catalog, t, sized)
    ensures TablesConform(e, t, sized)
  {
    hide StoreConforms, OverlayConforms, Conforming, Plain, Collect;
    forall id {:trigger id in e.catalog.tables} | id in e.catalog.tables
      ensures Conforming(Plain(ScanTable(e, t, id)), e.catalog.tables[id].columns, sized)
    {
      CollectConforms(e, t, id, Ordering.Sorted(StoredKeys(e, id) + OverlayKeys(t, id)), sized);
    }
  }

  lemma ReachedConforms(cs: seq<Command>, t: Transaction, sized: bool)
    requires (sized ==> EncodableRun(cs)) && OverlayConforms(After(cs).catalog, t, sized)
    ensures TablesConform(After(cs), t, sized)
  {
    hide OverlayConforms, TablesConform, EncodableRun, Run;
    assert StoreConforms(Fresh(), sized);
    RunConforms(Fresh(), cs, sized);
    EveryTableConforms(After(cs), t, sized);
  }

  /** Query equivalence over every run: for a bound query over distinct tables with
      validated parameters, whose index accesses are complete in the snapshot, where scans
      and nested loops succeed the optimized plan returns the same rows in the same order
      exactly when no value it probes for and no key it hashes is over 16 MiB; otherwise it
      fails. */
  lemma QueryEquivalence(cs: seq<Command>, t: Transaction, p: LogicalPlan, specs: seq<SqlExpr.ParameterSpec>,
                         ps: seq<Value>)
    requires WellBound(p, After(cs).catalog) && DistinctFrom(p) && OverlayConforms(After(cs).catalog, t, false)
    requires ParametersBound(p, specs) && SqlExpr.ValidateParameters(specs, ps).None?
    requires PlanComplete(After(cs), PastOf(cs), t, p, ps) && After(cs).retainedFloor <= t.readTs
    requires Execute(After(cs), t, Naive(p), ps).Ok?
    ensures var e := After(cs);
            var r := Execute(e, t, Optimize(p, e.catalog), ps);
            if ProbesFit(Probes(p, e.catalog), ps) && JoinsFit(e, t, p, ps) then r == Execute(e, t, Naive(p), ps)
            else r.Err?
  {
    hide PastOf, Execute, Optimize, Naive, Probes, WellBound, JoinsInPlace, DistinctFrom, ProbesOk, ProbesFit,
         Run, PlanComplete, PlanAgrees, ParametersBound, JoinsFit, TablesConform, OverlayConforms;
    var e := After(cs);
    CompleteAgrees(cs, t, p, ps);
    DistinctFromBinds(p, e.catalog);
    ReachedConforms(cs, t, false);
    PlanEquivalence(e, t, p, ps);
    ValidProbes(p, e.catalog, specs, ps);
  }

  /** The optimized plan answers the query: its rows are what the query means. */
  lemma QueryAnswered(cs: seq<Command>, t: Transaction, p: LogicalPlan, specs: seq<SqlExpr.ParameterSpec>,
                      ps: seq<Value>)
    requires WellBound(p, After(cs).catalog) && DistinctFrom(p) && OverlayConforms(After(cs).catalog, t, false)
    requires ParametersBound(p, specs) && SqlExpr.ValidateParameters(specs, ps).None?
    requires PlanComplete(After(cs), PastOf(cs), t, p, ps) && After(cs).retainedFloor <= t.readTs
    requires Execute(After(cs), t, Naive(p), ps).Ok?
    requires ProbesFit(Probes(p, After(cs).catalog), ps) && JoinsFit(After(cs), t, p, ps)
    ensures var r := Execute(After(cs), t, Optimize(p, After(cs).catalog), ps);
            r.Ok? && QueryAnswers.Answers(After(cs), t, p, ps, r.value)
  {
    hide *;
    QueryEquivalence(cs, t, p, specs, ps);
    QueryAnswers.NaiveAnswers(After(cs), t, p, ps);
  }

  /** Only a staged row can make a join fail: committed values have been encoded. */
  lemma OnlyStagedKeysFail(cs: seq<Command>, t: Transaction, p: LogicalPlan, ps: seq<Value>)
    requires EncodableRun(cs) && WellBound(p, After(cs).catalog) && OverlayConforms(After(cs).catalog, t, true)
    ensures JoinsFit(After(cs), t, p, ps)
  {
    hide EncodableRun, WellBound, OverlayConforms, JoinsFit, TablesConform, Run;
    ReachedConforms(cs, t, true);
    SizedJoinsFit(After(cs), t, p, ps);
  }
}
