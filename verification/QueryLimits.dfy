/** Where the optimized plan falls short of the naive one, each on the state of a run:
    a table used twice, an index younger than the snapshot, a value too large to look up, a
    staged value too large to join on. */
module QueryLimits {
  import opened Wrappers
  import opened Ordering
  import opened OrderedKeys
  import opened RowCodec
  import opened Mvcc
  import opened MvccChains
  import opened MvccRuns
  import opened MvccTheorems
  import opened SqlExpr
  import opened QueryPlan
  import opened Executor
  import opened PlanProofs
  import opened PlanTheorems
  import opened QueryTheorems

  // ---------------------------------------------------------------------- the run

  function Numbers(id: TableId, name: string): TableMeta {
    TableMeta(id, name, [Column("k", 1, false, true), Column("y", 1, true, false)], 0)
  }

  function Texts(id: TableId, name: string): TableMeta {
    TableMeta(id, name, [Column("k", 1, false, true), Column("s", 3, true, false)], 0)
  }

  const WORDS := Texts(3, "w")
  const NOTES := Texts(4, "v")
  const BY_S := IndexMeta(1, "by_s", 3, 1)
  const BY_Y := IndexMeta(2, "by_y", 1, 1)
  const TABLES := map[1 := Numbers(1, "t"), 2 := Numbers(2, "u"), 3 := WORDS, 4 := NOTES]
  const FIRST := Catalog(1, TABLES, map[1 := BY_S])
  const CLIENT: ClientId := [1]

  function Creating(): Attempt {
    Attempt(CLIENT, 1, 0, 0, 0, [],
            [CreateTable(Numbers(1, "t")), CreateTable(Numbers(2, "u")), CreateTable(WORDS), CreateTable(NOTES),
             CreateIndex(BY_S)])
  }

  function PutNumbers(table: TableId, k: i64, y: i64): TxnWrite {
    TxnWrite(table, Int64(k), Put([Int64(k), Int64(y)]))
  }

  function Inserting(): Attempt {
    Attempt(CLIENT, 2, 0, 1, 1, [PutNumbers(1, 0, 0), PutNumbers(1, 1, 1), PutNumbers(2, 0, 0)], [])
  }

  function Indexing(): Attempt {
    Attempt(CLIENT, 3, 0, 2, 1, [], [CreateIndex(BY_Y)])
  }

  /** Create the tables and an index, fill two tables, then index one of them. */
  function Commands(): seq<Command> {
    [Txn(1, [], [], Creating()), Txn(2, [], [], Inserting()), Txn(3, [], [], Indexing())]
  }

  /** The engine after `n` of the client's requests. */
  predicate Served(e: Engine, n: nat) {
    && e.lastApplied == n && e.retainedFloor == 0
    && (if n == 0 then CLIENT !in e.clients else CLIENT in e.clients && e.clients[CLIENT].sequence == n)
  }

  lemma CreatingMakes()
    ensures Canonical(Creating()) && ApplyMutations(Fresh().catalog, Creating().mutations) == Some(FIRST)
  {
    var ms := Creating().mutations;
    var c0 := Fresh().catalog;
    var c1 := CreateOne(c0, ms[0]);
    assert c1 == Some(Catalog(0, map[1 := Numbers(1, "t")], map[]));
    var c2 := CreateOne(c1.value, ms[1]);
    assert c2 == Some(Catalog(0, map[1 := Numbers(1, "t"), 2 := Numbers(2, "u")], map[]));
    var c3 := CreateOne(c2.value, ms[2]);
    assert c3 == Some(Catalog(0, map[1 := Numbers(1, "t"), 2 := Numbers(2, "u"), 3 := WORDS], map[]));
    var c4 := CreateOne(c3.value, ms[3]);
    assert c4 == Some(Catalog(0, TABLES, map[]));
    var c5 := CreateOne(c4.value, ms[4]);
    assert c5 == Some(Catalog(0, TABLES, map[1 := BY_S]));
    assert CreateAll(c5.value, ms[1..][1..][1..][1..][1..]) == c5;
    assert CreateAll(c4.value, ms[1..][1..][1..][1..]) == c5;
    assert CreateAll(c3.value, ms[1..][1..][1..]) == c5;
    assert CreateAll(c2.value, ms[1..][1..]) == c5;
    assert CreateAll(c1.value, ms[1..]) == c5;
    assert CreateAll(c0, ms) == c5;
  }

  /** A new request of the client, once its attempt is found valid. */
  lemma ServesNext(e: Engine, n: nat, a: Attempt, c: Catalog)
    requires Served(e, n) && a.client == CLIENT && a.sequence == n + 1 && Canonical(a) && ValidateAttempt(e, a) == Ok(c)
    ensures var f := Step(e, Txn(n + 1, [], [], a)).0;
            && Served(f, n + 1) && f.catalog == c && f.primary == Commit(e, n + 1, a, c).primary
            && IsNew(e, Txn(n + 1, [], [], a))
  {
    hide Commit, ValidateAttempt, Canonical;
    CommitFrame(e, n + 1, a, c);
  }

  lemma AfterFirst()
    ensures var e := After(Commands()[..1]); Served(e, 1) && e.catalog == FIRST && e.primary == map[]
  {
    hide Step, Canonical, ApplyMutations;
    CreatingMakes();
    assert CheckWrites(Fresh(), FIRST, 0, []) == None;
    ServesNext(Fresh(), 0, Creating(), FIRST);
    assert Commands()[..1][1..] == [];
  }

  function Key(table: TableId, k: i64): LogicalKey {
    LogicalKey(table, EncodeOrdered(Int64(k)))
  }

  function Pair(k: i64, y: i64): Row {
    [Int64(k), Int64(y)]
  }

  const FILLED: Primary := map[Key(1, 0) := [RowVersion(2, Some(Pair(0, 0)))],
                               Key(1, 1) := [RowVersion(2, Some(Pair(1, 1)))],
                               Key(2, 0) := [RowVersion(2, Some(Pair(0, 0)))]]

  lemma KeysDiffer()
    ensures Less(EncodeOrdered(Int64(0)), EncodeOrdered(Int64(1))) && EncodeOrdered(Int64(0)) != EncodeOrdered(Int64(1))
  {
    hide EncodeOrdered, Less;
    OrderedExactly(Int64(0), Int64(1));
    PrefixFree(Int64(0), Int64(1));
  }

  lemma InsertingChecks(e: Engine)
    requires Served(e, 1) && e.catalog == FIRST && e.primary == map[]
    ensures Canonical(Inserting()) && ValidateAttempt(e, Inserting()) == Ok(FIRST)
  {
    hide EncodeOrdered, Less;
    KeysDiffer();
    var ws := Inserting().writes;
    assert ApplyMutations(FIRST, []) == Some(FIRST);
    assert forall i :: 0 <= i < 3 ==> CheckWrite(e, FIRST, 1, ws[i]) == None;
    assert CheckWrites(e, FIRST, 1, ws[1..][1..][1..]) == None;
    assert CheckWrites(e, FIRST, 1, ws[1..][1..]) == None;
    assert CheckWrites(e, FIRST, 1, ws[1..]) == None;
    assert CheckWrites(e, FIRST, 1, ws) == None;
  }

  lemma PushFirst(p: Primary, k: LogicalKey, commit: nat, row: Option<Row>)
    requires k !in p
    ensures PushRow(p, k, commit, row) == p[k := [RowVersion(commit, row)]]
  {
    assert [RowVersion(commit, row)] + [] == [RowVersion(commit, row)];
  }

  /** The rows written, whatever the indexes do. */
  lemma InsertingFills(e: Engine, c: Catalog)
    requires e.primary == map[]
    ensures ApplyWrites(e, c, 1, 2, Inserting().writes).primary == FILLED
  {
    hide EncodeOrdered, UpdateMarks, PushRow, Less, IndexesOf;
    KeysDiffer();
    var ws := Inserting().writes;
    PushFirst(map[], Key(1, 0), 2, Some(Pair(0, 0)));
    PushFirst(map[Key(1, 0) := [RowVersion(2, Some(Pair(0, 0)))]], Key(1, 1), 2, Some(Pair(1, 1)));
    PushFirst(map[Key(1, 0) := [RowVersion(2, Some(Pair(0, 0)))], Key(1, 1) := [RowVersion(2, Some(Pair(1, 1)))]],
              Key(2, 0), 2, Some(Pair(0, 0)));
    var e1 := e.(primary := PushRow(e.primary, ws[0].Key(), 2, ws[0].NewRow()),
                 secondary := UpdateMarks(e.secondary, IndexesOf(c, 1), ws[0].Key().primaryKey,
                                          Read(e, ws[0].Key(), 1), ws[0].NewRow(), 2));
    assert e1.primary == map[Key(1, 0) := [RowVersion(2, Some(Pair(0, 0)))]];
    assert ApplyWrites(e, c, 1, 2, ws) == ApplyWrites(e1, c, 1, 2, ws[1..]);
    var w1 := ws[1..][0];
    var e2 := e1.(primary := PushRow(e1.primary, w1.Key(), 2, w1.NewRow()),
                  secondary := UpdateMarks(e1.secondary, IndexesOf(c, 1), w1.Key().primaryKey, Read(e1, w1.Key(), 1),
                                           w1.NewRow(), 2));
    assert e2.primary == map[Key(1, 0) := [RowVersion(2, Some(Pair(0, 0)))],
                             Key(1, 1) := [RowVersion(2, Some(Pair(1, 1)))]];
    assert ApplyWrites(e1, c, 1, 2, ws[1..]) == ApplyWrites(e2, c, 1, 2, ws[1..][1..]);
    var w2 := ws[1..][1..][0];
    var e3 := e2.(primary := PushRow(e2.primary, w2.Key(), 2, w2.NewRow()),
                  secondary := UpdateMarks(e2.secondary, IndexesOf(c, 2), w2.Key().primaryKey, Read(e2, w2.Key(), 1),
                                           w2.NewRow(), 2));
    assert e3.primary == FILLED;
    assert ApplyWrites(e2, c, 1, 2, ws[1..][1..]) == e3;
  }

  lemma RunOneMore(n: nat)
    requires n < 3
    ensures After(Commands()[..n + 1]) == Step(After(Commands()[..n]), Commands()[n]).0
    ensures PastOf(Commands()[..n + 1]) == Recorded(PastOf(Commands()[..n]), After(Commands()[..n]), Commands()[n])
  {
    hide Step, Recorded;
    var cs, c := Commands()[..n], Commands()[n];
    assert Commands()[..n + 1] == cs + [c];
    RunSplit(Fresh(), DAWN, cs, [c]);
    assert [c][1..] == [];
  }

  lemma AfterSecond()
    ensures var e := After(Commands()[..2]); Served(e, 2) && e.catalog == FIRST && e.primary == FILLED
  {
    hide After, Step, Canonical, ValidateAttempt, ApplyWrites;
    AfterFirst();
    RunOneMore(1);
    var e := After(Commands()[..1]);
    InsertingChecks(e);
    InsertingFills(e, FIRST);
    ServesNext(e, 1, Inserting(), FIRST);
  }

  const SECOND := Catalog(2, TABLES, map[1 := BY_S, 2 := BY_Y])

  lemma IndexingChecks(e: Engine)
    requires Served(e, 2) && e.catalog == FIRST
    ensures Canonical(Indexing()) && ValidateAttempt(e, Indexing()) == Ok(SECOND)
            && NewIndexes(Indexing().mutations) == [BY_Y]
  {
    var a, d := Indexing(), Catalog(1, TABLES, map[1 := BY_S, 2 := BY_Y]);
    assert a.mutations[1..] == [] && CreateOne(FIRST, a.mutations[0]) == Some(d);
    assert CreateAll(FIRST, a.mutations) == Some(d);
    assert CheckWrites(e, SECOND, 2, a.writes) == None;
  }

  lemma AfterThird()
    ensures var e := After(Commands()); Served(e, 3) && e.catalog == SECOND && e.primary == FILLED
    ensures 2 in PastOf(Commands()).created && PastOf(Commands()).created[2] == 3
  {
    hide After, PastOf, Step, Backfill, Canonical, ValidateAttempt, NewIndexes, WritesOf;
    AfterSecond();
    RunOneMore(2);
    assert Commands()[..3] == Commands();
    var e := After(Commands()[..2]);
    IndexingChecks(e);
    ServesNext(e, 2, Indexing(), SECOND);
    assert ApplyWrites(e, FIRST, 2, 3, []) == e;
    assert BY_Y in [BY_Y] && BY_Y.id in IdsOf([BY_Y]);
  }

  // ------------------------------------------------------------------------- scans

  /** A snapshot taken after the rows were inserted. */
  const SNAPSHOT := Transaction(2, 1, map[])

  lemma TwoSorted(a: Bytes, b: Bytes)
    requires Less(a, b)
    ensures Ordering.Sorted({a, b}) == [a, b] && Ordering.Sorted({b}) == [b]
  {
    LessIrreflexive(a);
    var s := {a, b};
    assert IsLeast(s, a);
    LeastUnique(s, a, Least(s));
    assert s - {a} == {b};
    assert IsLeast({b}, b);
    LeastUnique({b}, b, Least({b}));
    assert {b} - {b} == {};
    assert Ordering.Sorted({b}) == [b];
    assert Ordering.Sorted(s) == [a] + Ordering.Sorted(s - {a}) == [a] + [b];
  }

  lemma OneSorted(a: Bytes)
    ensures Ordering.Sorted({a}) == [a]
  {
    assert IsLeast({a}, a);
    LeastUnique({a}, a, Least({a}));
    assert {a} - {a} == {};
    assert Ordering.Sorted({a}) == [a] + Ordering.Sorted({}) == [a];
  }

  lemma ScansNumbers(e: Engine)
    requires e.primary == FILLED
    ensures ScanTable(e, SNAPSHOT, 1) == [Pair(0, 0), Pair(1, 1)] && ScanTable(e, SNAPSHOT, 2) == [Pair(0, 0)]
            && ScanTable(e, SNAPSHOT, 3) == []
  {
    hide EncodeOrdered, Less;
    KeysDiffer();
    var a, b := EncodeOrdered(Int64(0)), EncodeOrdered(Int64(1));
    TwoSorted(a, b);
    OneSorted(a);
    StoredNumbers(e);
    assert Read(e, Key(1, 0), 2) == Some(Pair(0, 0)) && Read(e, Key(1, 1), 2) == Some(Pair(1, 1))
           && Read(e, Key(2, 0), 2) == Some(Pair(0, 0));
    assert [a, b][1..] == [b] && [b][1..] == [] && [a][1..] == [];
    assert Collect(e, SNAPSHOT, 1, [b], None) == [Pair(1, 1)];
    assert Collect(e, SNAPSHOT, 1, [a, b], None) == [Pair(0, 0)] + [Pair(1, 1)];
    assert Collect(e, SNAPSHOT, 2, [a], None) == [Pair(0, 0)];
  }

  lemma StoredNumbers(e: Engine)
    requires e.primary == FILLED
    ensures var a, b := EncodeOrdered(Int64(0)), EncodeOrdered(Int64(1));
            && StoredKeys(e, 1) + OverlayKeys(SNAPSHOT, 1) == {a, b}
            && StoredKeys(e, 2) + OverlayKeys(SNAPSHOT, 2) == {a}
            && StoredKeys(e, 3) + OverlayKeys(SNAPSHOT, 3) == {}
  {
    hide EncodeOrdered;
    var a, b := EncodeOrdered(Int64(0)), EncodeOrdered(Int64(1));
    assert Key(1, 0) in e.primary && Key(1, 1) in e.primary && Key(2, 0) in e.primary;
    assert Key(1, 0).primaryKey == a && Key(1, 1).primaryKey == b && Key(2, 0).primaryKey == a;
    assert a in StoredKeys(e, 1) && b in StoredKeys(e, 1) && a in StoredKeys(e, 2);
    assert OverlayKeys(SNAPSHOT, 1) == {} && OverlayKeys(SNAPSHOT, 2) == {} && OverlayKeys(SNAPSHOT, 3) == {};
  }

  // ------------------------------------------------------------- a table used twice

  /** `t AS a JOIN u AS b ON a.k = b.k JOIN t AS c ON b.y = a.y`. */
  function RepeatedTable(): LogicalPlan {
    var t, u := Numbers(1, "t"), Numbers(2, "u");
    Join(Join(Scan(BoundTable(t, 0)), Scan(BoundTable(u, 2)), SameKey()), Scan(BoundTable(t, 4)), SameY())
  }

  function SameKey(): Expr {
    Binary(ColumnRef(BoundColumn(1, 0, 0, 1)), Eq, ColumnRef(BoundColumn(2, 0, 2, 1)))
  }

  function SameY(): Expr {
    Binary(ColumnRef(BoundColumn(2, 1, 3, 1)), Eq, ColumnRef(BoundColumn(1, 1, 1, 1)))
  }

  lemma EqualityBound(a: BoundColumn, b: BoundColumn, tables: seq<BoundTable>, i: nat, j: nat)
    requires i < |tables| && j < |tables| && BoundTo(a, tables[i]) && BoundTo(b, tables[j])
    ensures var on := Binary(ColumnRef(a), Eq, ColumnRef(b)); Bound(on, tables) && !ContainsAggregate(on)
  {
    assert Bound(ColumnRef(a), tables) && Bound(ColumnRef(b), tables);
    assert !ContainsAggregate(ColumnRef(a)) && !ContainsAggregate(ColumnRef(b));
  }

  /** One more table, joined on an equality of a column there and one of the tables before. */
  lemma JoinBound(left: LogicalPlan, table: BoundTable, on: Expr, a: BoundColumn, b: BoundColumn, x: BoundTable,
                  y: BoundTable, c: Catalog)
    requires WellBound(left, c) && WellBound(Scan(table), c) && IsFrom(left) && table.offset == |Columns(left)|
    requires on == Binary(ColumnRef(a), Eq, ColumnRef(b))
    requires x in Tables(left) && BoundTo(a, x) && (y in Tables(left) || y == table) && BoundTo(b, y)
    ensures var p := Join(left, Scan(table), on);
            && WellBound(p, c) && IsFrom(p) && Tables(p) == Tables(left) + [table]
            && |Columns(p)| == |Columns(left)| + |table.meta.columns|
  {
    hide Bound, ContainsAggregate, BoundTo;
    var p := Join(left, Scan(table), on);
    assert Tables(Scan(table)) == [table] && Tables(p) == Tables(left) + [table];
    assert x in Tables(p) && y in Tables(p);
    var i :| 0 <= i < |Tables(p)| && Tables(p)[i] == x;
    var j :| 0 <= j < |Tables(p)| && Tables(p)[j] == y;
    EqualityBound(a, b, Tables(p), i, j);
  }

  lemma RepeatedIsBound(c: Catalog)
    requires c.tables == TABLES
    ensures WellBound(RepeatedTable(), c) && !DistinctFrom(RepeatedTable())
  {
    hide Bound, ContainsAggregate, WellBound, IsFrom, Numbers, Tables, Columns, SameKey, SameY, DistinctFrom;
    var t, u, again := BoundTable(Numbers(1, "t"), 0), BoundTable(Numbers(2, "u"), 2), BoundTable(Numbers(1, "t"), 4);
    NumbersBound(1, "t", 0, c);
    NumbersBound(2, "u", 2, c);
    NumbersBound(1, "t", 4, c);
    FirstTable(t);
    EqualitiesAre();
    JoinBound(Scan(t), u, SameKey(), BoundColumn(1, 0, 0, 1), BoundColumn(2, 0, 2, 1), t, u, c);
    var inner := Join(Scan(t), Scan(u), SameKey());
    JoinBound(inner, again, SameY(), BoundColumn(2, 1, 3, 1), BoundColumn(1, 1, 1, 1), u, t, c);
    TwiceIsNotDistinct(inner, again, SameY(), t);
  }

  lemma EqualitiesAre()
    ensures SameKey() == Binary(ColumnRef(BoundColumn(1, 0, 0, 1)), Eq, ColumnRef(BoundColumn(2, 0, 2, 1)))
    ensures SameY() == Binary(ColumnRef(BoundColumn(2, 1, 3, 1)), Eq, ColumnRef(BoundColumn(1, 1, 1, 1)))
  {
  }

  lemma TwiceIsNotDistinct(left: LogicalPlan, table: BoundTable, on: Expr, x: BoundTable)
    requires x in Tables(left) && x.meta.id == table.meta.id
    ensures !DistinctFrom(Join(left, Scan(table), on))
  {
    var p := Join(left, Scan(table), on);
    assert Tables(Scan(table)) == [table] && Tables(p) == Tables(left) + [table];
    var i :| 0 <= i < |Tables(left)| && Tables(left)[i] == x;
    assert Tables(p)[i] == x && Tables(p)[|Tables(left)|] == table;
  }

  lemma NumbersBound(id: TableId, name: string, offset: nat, c: Catalog)
    requires c.tables == TABLES && (id, name) in [(1, "t"), (2, "u")]
    ensures var m := Numbers(id, name);
            && m.id == id && |m.columns| == 2 && m.columns[0].typeTag == m.columns[1].typeTag == 1
            && WellBound(Scan(BoundTable(m, offset)), c)
  {
  }

  lemma ScanBound(id: TableId, offset: nat, c: Catalog)
    requires c.tables == TABLES && id in c.tables
    ensures WellBound(Scan(BoundTable(c.tables[id], offset)), c) && c.tables[id].id == id
  {
  }

  lemma FirstTable(table: BoundTable)
    requires table.offset == 0
    ensures IsFrom(Scan(table)) && Tables(Scan(table)) == [table] && Columns(Scan(table)) == table.meta.columns
  {
  }

  /** An equality of two integer slots. */
  lemma EqualSlots(on: Expr, a: BoundColumn, b: BoundColumn, r: ExecRow)
    requires on == Binary(ColumnRef(a), Eq, ColumnRef(b)) && a.slot < |r.row| && b.slot < |r.row|
             && a.typeTag == b.typeTag == 1
    requires r.row[a.slot].Int64? && r.row[b.slot].Int64?
    ensures PredicateExec(on, r, []) == Ok(r.row[a.slot] == r.row[b.slot])
  {
    assert !ContainsAggregate(ColumnRef(a)) && !ContainsAggregate(ColumnRef(b)) && !ContainsAggregate(on);
    assert SqlExpr.Evaluate(ColumnRef(a), r.row, []) == Ok(r.row[a.slot])
           && SqlExpr.Evaluate(ColumnRef(b), r.row, []) == Ok(r.row[b.slot]);
    assert SqlExpr.Evaluate(on, r.row, []) == Compare(r.row[a.slot], Eq, r.row[b.slot]);
  }

  const T0 := ExecRow(Pair(0, 0), [])
  const T1 := ExecRow(Pair(1, 1), [])
  const AB := ExecRow(Pair(0, 0) + Pair(0, 0), [])
  const ABC0 := ExecRow(Pair(0, 0) + Pair(0, 0) + Pair(0, 0), [])
  const ABC1 := ExecRow(Pair(0, 0) + Pair(0, 0) + Pair(1, 1), [])

  lemma OnKeys()
    ensures JoinNested([T0, T1], [T0], SameKey(), [], []) == Ok([AB])
    ensures JoinInner(T0, [T0], SameKey(), [], []) == Ok([AB]) && JoinInner(T1, [], SameKey(), [], [AB]) == Ok([AB])
  {
    hide PredicateExec, SameKey;
    var none: seq<ExecRow> := [];
    KeyMatches();
    assert Combine(T0, T0) == AB && none + [AB] == [AB];
    assert [T0][1..] == [] && [T0, T1][1..] == [T1] && [T1][1..] == [];
    assert JoinInner(T0, [], SameKey(), [], [AB]) == Ok([AB]);
    assert JoinInner(T0, [T0], SameKey(), [], []) == JoinInner(T0, [], SameKey(), [], none + [AB]);
    assert JoinInner(T1, [], SameKey(), [], [AB]) == Ok([AB]);
    assert JoinInner(T1, [T0], SameKey(), [], [AB]) == Ok([AB]);
    assert JoinNested([], [T0], SameKey(), [], [AB]) == Ok([AB]);
    assert JoinNested([T1], [T0], SameKey(), [], [AB]) == Ok([AB]);
  }

  lemma KeyMatches()
    ensures PredicateExec(SameKey(), Combine(T0, T0), []) == Ok(true)
            && PredicateExec(SameKey(), Combine(T1, T0), []) == Ok(false)
  {
    hide PredicateExec;
    var a, b := BoundColumn(1, 0, 0, 1), BoundColumn(2, 0, 2, 1);
    EqualSlots(SameKey(), a, b, Combine(T0, T0));
    EqualSlots(SameKey(), a, b, Combine(T1, T0));
  }

  lemma YMatches()
    ensures PredicateExec(SameY(), Combine(AB, T0), []) == Ok(true)
            && PredicateExec(SameY(), Combine(AB, T1), []) == Ok(true)
  {
    hide PredicateExec;
    var a, b := BoundColumn(2, 1, 3, 1), BoundColumn(1, 1, 1, 1);
    EqualSlots(SameY(), a, b, Combine(AB, T0));
    EqualSlots(SameY(), a, b, Combine(AB, T1));
  }

  lemma OnYNested()
    ensures JoinNested([AB], [T0, T1], SameY(), [], []) == Ok([ABC0, ABC1])
    ensures JoinInner(AB, [T0], SameY(), [], []) == Ok([ABC0])
  {
    hide PredicateExec, SameY;
    var none: seq<ExecRow> := [];
    YMatches();
    assert Combine(AB, T0) == ABC0 && Combine(AB, T1) == ABC1 && none + [ABC0] == [ABC0]
           && [ABC0] + [ABC1] == [ABC0, ABC1];
    assert [T0][1..] == [] && [T0, T1][1..] == [T1] && [T1][1..] == [] && [AB][1..] == [];
    assert JoinInner(AB, [], SameY(), [], [ABC0, ABC1]) == Ok([ABC0, ABC1]);
    assert JoinInner(AB, [T1], SameY(), [], [ABC0]) == Ok([ABC0, ABC1]);
    assert JoinInner(AB, [T0, T1], SameY(), [], []) == Ok([ABC0, ABC1]);
    assert JoinInner(AB, [], SameY(), [], [ABC0]) == Ok([ABC0]);
    assert JoinInner(AB, [T0], SameY(), [], []) == JoinInner(AB, [], SameY(), [], none + [ABC0]);
    assert JoinNested([], [T0, T1], SameY(), [], [ABC0, ABC1]) == Ok([ABC0, ABC1]);
  }

  lemma CodesDiffer()
    ensures EncodeValue(Int64(0)) != EncodeValue(Int64(1))
  {
    hide EncodeValue;
    if EncodeValue(Int64(0)) == EncodeValue(Int64(1)) {
      SameValue(Int64(0), Int64(1));
    }
  }

  /** Hashing `c` on its own `y` finds only the row whose `y` is zero. */
  lemma OnYHashed()
    ensures HashJoin([AB], [T0, T1], ColumnRef(BoundColumn(2, 1, 3, 1)), 1, SameY(), []) == Ok([ABC0])
  {
    hide EncodeValue, JoinInner, SameY;
    OnYNested();
    CodesDiffer();
    var key := EncodeValue(Int64(0));
    assert [T0, T1][1..] == [T1] && [T1][1..] == [] && [AB][1..] == [];
    assert BucketError([T1], 1) == None && BucketError([T0, T1], 1) == None;
    assert Bucket([T1], 1, key) == [] && Bucket([T0, T1], 1, key) == [T0] + [] == [T0];
    assert EvaluateExec(ColumnRef(BoundColumn(2, 1, 3, 1)), AB, []) == Ok(Int64(0));
    assert JoinHashed([], [T0, T1], ColumnRef(BoundColumn(2, 1, 3, 1)), 1, SameY(), [], [ABC0]) == Ok([ABC0]);
    assert JoinHashed([AB], [T0, T1], ColumnRef(BoundColumn(2, 1, 3, 1)), 1, SameY(), [], []) == Ok([ABC0]);
  }

  lemma OnKeysHashed()
    ensures HashJoin([T0, T1], [T0], ColumnRef(BoundColumn(1, 0, 0, 1)), 0, SameKey(), []) == Ok([AB])
  {
    hide EncodeValue, JoinInner, SameKey;
    OnKeys();
    CodesDiffer();
    var column := ColumnRef(BoundColumn(1, 0, 0, 1));
    assert [T0, T1][1..] == [T1] && [T1][1..] == [] && [T0][1..] == [];
    assert BucketError([T0], 0) == None;
    assert Bucket([T0], 0, EncodeValue(Int64(0))) == [T0] + [] == [T0] && Bucket([T0], 0, EncodeValue(Int64(1))) == [];
    assert EvaluateExec(column, T0, []) == Ok(Int64(0)) && EvaluateExec(column, T1, []) == Ok(Int64(1));
    assert JoinHashed([], [T0], column, 0, SameKey(), [], [AB]) == Ok([AB]);
    assert JoinHashed([T1], [T0], column, 0, SameKey(), [], [AB]) == Ok([AB]);
    assert JoinHashed([T0, T1], [T0], column, 0, SameKey(), [], []) == Ok([AB]);
  }

  lemma NoIndexes(table: TableId)
    requires table != 3
    ensures IndexesOf(FIRST, table) == []
  {
    assert (set i | i in FIRST.indexes && FIRST.indexes[i].table == table) == {};
  }

  lemma ScansExecute(e: Engine, table: BoundTable)
    requires e.primary == FILLED && Served(e, 2) && e.catalog == FIRST && table.meta.id in {1, 2}
    ensures Execute(e, SNAPSHOT, SeqScan(table), []) == Ok(if table.meta.id == 1 then [T0, T1] else [T0])
  {
    hide ScanTable;
    ScansNumbers(e);
    assert [Pair(0, 0), Pair(1, 1)][1..] == [Pair(1, 1)] && [Pair(1, 1)][1..] == [] && [Pair(0, 0)][1..] == [];
    assert Plain([Pair(1, 1)]) == [T1] && Plain([Pair(0, 0)]) == [T0];
    assert Plain([Pair(0, 0), Pair(1, 1)]) == [T0] + [T1] == [T0, T1];
  }

  /** A table used twice: its id finds the second use where the condition means the first,
      and the optimized query loses a row. */
  lemma RepeatedTableLosesRows()
    ensures var e, p := After(Commands()[..2]), RepeatedTable();
            && WellBound(p, e.catalog) && !DistinctFrom(p)
            && Execute(e, SNAPSHOT, Naive(p), []) == Ok([ABC0, ABC1])
            && Execute(e, SNAPSHOT, Optimize(p, e.catalog), []) == Ok([ABC0])
  {
    hide After, WellBound, DistinctFrom, Execute, Naive, Optimize, Served, RepeatedTable;
    AfterSecond();
    RepeatedIsBound(FIRST);
    RepeatedNaively(After(Commands()[..2]));
    RepeatedOptimized(After(Commands()[..2]));
  }

  lemma RepeatedNaively(e: Engine)
    requires e.primary == FILLED && Served(e, 2) && e.catalog == FIRST
    ensures Execute(e, SNAPSHOT, Naive(RepeatedTable()), []) == Ok([ABC0, ABC1])
  {
    hide ScanRows, JoinNested, HashJoin, Served, PlanTables;
    var t, u := Numbers(1, "t"), Numbers(2, "u");
    ScansExecute(e, BoundTable(t, 0));
    ScansExecute(e, BoundTable(u, 2));
    ScansExecute(e, BoundTable(t, 4));
    OnKeys();
    OnYNested();
    assert Execute(e, SNAPSHOT, Naive(RepeatedTable().left), []) == Ok([AB]);
  }

  lemma RepeatedOptimized(e: Engine)
    requires e.primary == FILLED && Served(e, 2) && e.catalog == FIRST
    ensures Execute(e, SNAPSHOT, Optimize(RepeatedTable(), FIRST), []) == Ok([ABC0])
  {
    hide ScanRows, JoinNested, HashJoin, Served, IndexesOf;
    var t, u := Numbers(1, "t"), Numbers(2, "u");
    NoIndexes(1);
    NoIndexes(2);
    ScansExecute(e, BoundTable(t, 0));
    ScansExecute(e, BoundTable(u, 2));
    ScansExecute(e, BoundTable(t, 4));
    OnKeysHashed();
    OnYHashed();
    assert PlanTables(SeqScan(BoundTable(u, 2))) == {2} && PlanTables(SeqScan(BoundTable(t, 4))) == {1};
    assert Execute(e, SNAPSHOT, Optimize(RepeatedTable().left, FIRST), []) == Ok([AB]);
  }

  // ---------------------------------------------------------------- a younger index

  /** `SELECT * FROM t WHERE y = 0`. */
  function ByY(): LogicalPlan {
    Filter(Scan(BoundTable(Numbers(1, "t"), 0)), YIsZero())
  }

  function YIsZero(): Expr {
    Binary(ColumnRef(BoundColumn(1, 1, 1, 1)), Eq, Literal(Int64(0)))
  }

  lemma OneIndex(c: Catalog, table: TableId, x: IndexMeta)
    requires x.id in c.indexes && c.indexes[x.id] == x && x.table == table
    requires forall i :: i in c.indexes && c.indexes[i].table == table ==> i == x.id
    ensures IndexesOf(c, table) == [x]
  {
    var s := set i | i in c.indexes && c.indexes[i].table == table;
    assert s == {x.id};
    Singleton(s, x.id);
  }

  lemma Singleton(s: set<nat>, x: nat)
    requires s == {x}
    ensures SortedIds(s) == [x]
  {
    assert LeastId(s) in s;
    assert s - {LeastId(s)} == {};
  }

  lemma YChosen()
    ensures ChooseIndex(BoundTable(Numbers(1, "t"), 0), YIsZero(), SECOND)
            == Some((BY_Y, Constraint(1, Eq, Literal(Int64(0)))))
  {
    hide IndexesOf;
    OneIndex(SECOND, 1, BY_Y);
    assert Sargable(YIsZero()) == Some((BoundColumn(1, 1, 1, 1), Eq, Literal(Int64(0))));
  }

  lemma YFilters()
    ensures FilterRows([T0, T1], YIsZero(), []) == Ok([T0]) && FilterRows([], YIsZero(), []) == Ok([])
  {
    hide PredicateExec;
    YPredicate(T0);
    YPredicate(T1);
    assert [T0, T1][1..] == [T1] && [T1][1..] == [];
    var none: seq<ExecRow> := [];
    assert none + none == none && [T0] + none == [T0];
    assert FilterRows([T1], YIsZero(), []) == Ok(none + none);
    assert FilterRows([T0, T1], YIsZero(), []) == Ok([T0] + none);
  }

  lemma YPredicate(r: ExecRow)
    requires r in {T0, T1}
    ensures PredicateExec(YIsZero(), r, []) == Ok(r == T0)
  {
    var x := YIsZero();
    assert !ContainsAggregate(x.left) && !ContainsAggregate(x.right) && !ContainsAggregate(x);
    assert SqlExpr.Evaluate(x.left, r.row, []) == Ok(r.row[1]);
    assert SqlExpr.Evaluate(x, r.row, []) == Compare(r.row[1], Eq, Int64(0));
  }

  /** In a snapshot older than the index the optimized query loses the row it looks for. */
  lemma YoungIndexLosesRow()
    ensures var e := After(Commands());
            && SNAPSHOT.readTs == 2 && 2 in PastOf(Commands()).created && PastOf(Commands()).created[2] == 3
            && ScanSecondary(e, SNAPSHOT, BY_Y, Int64(0)) == [] && Pair(0, 0) in ScanTable(e, SNAPSHOT, 1)
            && Execute(e, SNAPSHOT, Naive(ByY()), []) == Ok([T0])
            && Execute(e, SNAPSHOT, Optimize(ByY(), e.catalog), []) == Ok([])
  {
    hide After, PastOf, FilterRows, ScanSecondary, ScanTable, ChooseIndex, YIsZero;
    AfterThird();
    var e := After(Commands());
    BeforeCreationOwnRows(Commands(), SNAPSHOT, BY_Y, Int64(0));
    assert OverlayKeys(SNAPSHOT, 1) == {};
    assert OwnRows(e, SNAPSHOT, 1) == [];
    ScansNumbers(e);
    YChosen();
    YFilters();
    PlainNumbers();
    var table := BoundTable(Numbers(1, "t"), 0);
    assert Execute(e, SNAPSHOT, SeqScan(table), []) == Ok([T0, T1]);
    assert EvaluateExec(Literal(Int64(0)), ExecRow([], []), []) == Ok(Int64(0));
    assert Execute(e, SNAPSHOT, IndexScan(table, BY_Y, Constraint(1, Eq, Literal(Int64(0)))), []) == Ok([]);
    assert Naive(ByY().input) == SeqScan(table);
  }

  lemma PlainNumbers()
    ensures Plain([Pair(0, 0), Pair(1, 1)]) == [T0, T1]
  {
    assert [Pair(0, 0), Pair(1, 1)][1..] == [Pair(1, 1)] && [Pair(1, 1)][1..] == [];
    assert Plain([Pair(1, 1)]) == [T1];
  }

  // ------------------------------------------------------------- a value too large

  /** `SELECT * FROM w WHERE s = ?`. */
  function ByWord(): LogicalPlan {
    Filter(Scan(BoundTable(WORDS, 0)), Binary(ColumnRef(BoundColumn(3, 1, 1, 3)), Eq, Parameter(0, Some(3))))
  }

  const WORD := [ParameterSpec(0, Some(3), true)]

  lemma ByWordIsBound()
    ensures WellBound(ByWord(), FIRST) && ParametersBound(ByWord(), WORD) && DistinctFrom(ByWord())
    ensures ChooseIndex(BoundTable(WORDS, 0), ByWord().predicate_, FIRST)
            == Some((BY_S, Constraint(1, Eq, Parameter(0, Some(3)))))
  {
    hide IndexesOf;
    var x, table := ByWord().predicate_, BoundTable(WORDS, 0);
    assert BoundTo(x.left.column, [table][0]);
    assert Bound(x.left, [table]) && Bound(x.right, [table]) && !ContainsAggregate(x.left)
           && !ContainsAggregate(x.right);
    assert WORD[0].index == 0 && SpecifiedBy(0, Some(3), WORD);
    assert Specified(x.left, WORD) && Specified(x.right, WORD);
    OneIndex(FIRST, 3, BY_S);
    assert Sargable(x) == Some((x.left.column, Eq, x.right));
  }

  lemma WordValidates(data: Bytes)
    ensures ValidateParameters(WORD, [Text(data)]) == None
  {
    assert WORD[1..] == [];
  }

  /** A parameter over 16 MiB passes validation; on an empty table the naive plan never
      looks at it, and the index access refuses to. */
  lemma OversizedProbeFails(data: Bytes)
    requires |data| > MAX_VALUE_BYTES
    ensures var e, t, p, ps := After(Commands()[..1]), Transaction(1, 1, map[]), ByWord(), [Text(data)];
            && WellBound(p, e.catalog) && ParametersBound(p, WORD) && ValidateParameters(WORD, ps).None?
            && !ProbesFit(Probes(p, e.catalog), ps)
            && Execute(e, t, Naive(p), ps) == Ok([]) && Execute(e, t, Optimize(p, e.catalog), ps).Err?
  {
    hide After, ChooseIndex, ValidateParameters, WellBound, ParametersBound, DistinctFrom;
    AfterFirst();
    ByWordIsBound();
    WordValidates(data);
    var e, t, p, ps := After(Commands()[..1]), Transaction(1, 1, map[]), ByWord(), [Text(data)];
    var table, con := BoundTable(WORDS, 0), Constraint(1, Eq, Parameter(0, Some(3)));
    assert StoredKeys(e, 3) + OverlayKeys(t, 3) == {};
    assert ScanTable(e, t, 3) == [] && Execute(e, t, SeqScan(table), ps) == Ok([]);
    assert SqlExpr.Evaluate(con.bound, [], ps) == Ok(Text(data)) == EvaluateExec(con.bound, ExecRow([], []), ps);
    assert Probes(p, FIRST)[0] == (BY_S, con) && !ProbeFits(con, ps);
    assert Execute(e, t, IndexScan(table, BY_S, con), ps).Err?;
    assert Naive(p.input) == SeqScan(table);
  }

  // ---------------------------------------------------- a staged value too large to join

  /** `w JOIN v ON w.s = v.s`. */
  function SameWord(): LogicalPlan {
    Join(Scan(BoundTable(WORDS, 0)), Scan(BoundTable(NOTES, 2)), WordsEqual())
  }

  function WordsEqual(): Expr {
    Binary(ColumnRef(BoundColumn(3, 1, 1, 3)), Eq, ColumnRef(BoundColumn(4, 1, 3, 3)))
  }

  function Entry(data: Bytes): Row {
    [Int64(0), Text(data)]
  }

  /** A transaction that has staged one row in each of the two tables. */
  function Staged(data: Bytes): Transaction {
    Transaction(1, 1, map[Key(3, 0) := TxnWrite(3, Int64(0), Put(Entry(data))),
                          Key(4, 0) := TxnWrite(4, Int64(0), Put(Entry(data)))])
  }

  lemma SameWordIsBound()
    ensures WellBound(SameWord(), FIRST) && ParametersBound(SameWord(), []) && DistinctFrom(SameWord())
  {
    hide Bound, ContainsAggregate, WellBound, IsFrom;
    var p := SameWord();
    ScanBound(3, 0, FIRST);
    ScanBound(4, 2, FIRST);
    FirstTable(p.left.table);
    JoinBound(p.left, p.right.table, p.on, p.on.left.column, p.on.right.column, p.left.table, p.right.table, FIRST);
    assert Specified(p.on.left, []) && Specified(p.on.right, []);
  }

  lemma StagedKeys(e: Engine, data: Bytes, id: TableId)
    requires e.primary == map[] && id in {3, 4}
    ensures StoredKeys(e, id) + OverlayKeys(Staged(data), id) == {EncodeOrdered(Int64(0))}
  {
    hide EncodeOrdered;
    var t := Staged(data);
    assert Key(id, 0) in t.writes && Key(id, 0).primaryKey == EncodeOrdered(Int64(0));
  }

  lemma StagedScans(e: Engine, data: Bytes, table: BoundTable)
    requires Served(e, 1) && e.catalog == FIRST && e.primary == map[] && table.meta.id in {3, 4}
    ensures Execute(e, Staged(data), SeqScan(table), []) == Ok([ExecRow(Entry(data), [])])
  {
    hide EncodeOrdered, StoredKeys, OverlayKeys;
    var t, id, pk := Staged(data), table.meta.id, EncodeOrdered(Int64(0));
    StagedKeys(e, data, id);
    OneSorted(pk);
    assert ReadKey(e, t, LogicalKey(id, pk)) == Some(Entry(data));
    assert [pk][1..] == [] && Collect(e, t, id, [pk], None) == [Entry(data)];
    assert [Entry(data)][1..] == [] && Plain([Entry(data)]) == [ExecRow(Entry(data), [])];
  }

  lemma WordsMatch(data: Bytes)
    ensures var r := ExecRow(Entry(data), []);
            JoinNested([r], [r], WordsEqual(), [], []) == Ok([ExecRow(Entry(data) + Entry(data), [])])
  {
    hide PredicateExec;
    var r := ExecRow(Entry(data), []);
    HoldsOnEqual(WordsEqual(), WordsEqual().left.column, WordsEqual().right.column, Combine(r, r), []);
    OneMatch(r, r, WordsEqual());
    assert Combine(r, r) == ExecRow(Entry(data) + Entry(data), []);
  }

  lemma WordsOversized(data: Bytes)
    requires |data| > MAX_VALUE_BYTES
    ensures var r := ExecRow(Entry(data), []);
            HashJoin([r], [r], WordsEqual().left, 1, WordsEqual(), []).Err? && !KeysFit([r], 1)
  {
    var r := ExecRow(Entry(data), []);
    assert InnerKey([r][0], 1).Err? && !FitsAt([r][0].row, 1);
  }

  /** Two staged rows with the same value over 16 MiB: staging checks a row's types and the
      size of its key, no more. Nested loops join them; the hash join cannot encode the value,
      and the query fails. */
  lemma OversizedJoinKeyFails(data: Bytes)
    requires |data| > MAX_VALUE_BYTES
    ensures var e, t, p := After(Commands()[..1]), Staged(data), SameWord();
            && WellBound(p, e.catalog) && DistinctFrom(p) && OverlayConforms(e.catalog, t, false)
            && ParametersBound(p, []) && ValidateParameters([], []).None?
            && PlanComplete(e, PastOf(Commands()[..1]), t, p, []) && e.retainedFloor <= t.readTs
            && Probes(p, e.catalog) == [] && !JoinsFit(e, t, p, [])
            && Execute(e, t, Naive(p), []) == Ok([ExecRow(Entry(data) + Entry(data), [])])
            && Execute(e, t, Optimize(p, e.catalog), []).Err?
  {
    hide After, WellBound, DistinctFrom, ParametersBound, Execute, KeysFit, HashJoin, JoinNested, EncodeOrdered,
         PastOf, JoinsFit;
    AfterFirst();
    SameWordIsBound();
    WordsMatch(data);
    WordsOversized(data);
    var e, t, p := After(Commands()[..1]), Staged(data), SameWord();
    assert RowOk(WORDS.columns, Entry(data)) && RowOk(NOTES.columns, Entry(data));
    JoinsWords(e, data);
    assert Probes(p.left, FIRST) == [] && Probes(p.right, FIRST) == [];
    assert PlanComplete(e, PastOf(Commands()[..1]), t, p.left, [])
           && PlanComplete(e, PastOf(Commands()[..1]), t, p.right, []);
  }

  lemma JoinsWords(e: Engine, data: Bytes)
    requires Served(e, 1) && e.catalog == FIRST && e.primary == map[]
    requires var r := ExecRow(Entry(data), []);
             HashJoin([r], [r], WordsEqual().left, 1, WordsEqual(), []).Err? && !KeysFit([r], 1)
             && JoinNested([r], [r], WordsEqual(), [], []) == Ok([ExecRow(Entry(data) + Entry(data), [])])
    ensures Execute(e, Staged(data), Naive(SameWord()), []) == Ok([ExecRow(Entry(data) + Entry(data), [])])
    ensures Execute(e, Staged(data), Optimize(SameWord(), FIRST), []).Err? && !JoinsFit(e, Staged(data), SameWord(), [])
  {
    hide ScanRows, JoinNested, HashJoin, KeysFit, Served, IndexesOf;
    var p := SameWord();
    StagedScans(e, data, p.left.table);
    StagedScans(e, data, p.right.table);
    assert PlanTables(SeqScan(p.right.table)) == {4} && Naive(p.left) == SeqScan(p.left.table);
    NoIndexes(4);
    assert HashJoinKeys(p.on, {4}) == Some((p.on.left.column, p.on.right.column));
  }
}
