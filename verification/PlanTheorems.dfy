/** Plan equivalence, its exact conditions, and where the code falls short of them. */
module PlanTheorems {
  import opened Wrappers
  import opened Ordering
  import opened OrderedKeys
  import opened RowCodec
  import opened Mvcc
  import opened SqlExpr
  import opened QueryPlan
  import opened Executor
  import opened PlanProofs

  // ------------------------------------------------------------------------ probes

  /** The index accesses an optimized plan makes. */
  function Probes(p: LogicalPlan, c: Catalog): seq<(IndexMeta, Constraint)> {
    match p
    case Scan(_) => []
    case Filter(input, x) =>
      var chosen := if input.Scan? then ChooseIndex(input.table, x, c) else None;
      if chosen.Some? then [chosen.value] else Probes(input, c)
    case Join(left, right, _) => Probes(left, c) + Probes(right, c)
    case Aggregated(input, _, _) => Probes(input, c)
    case Sort(input, _) => Probes(input, c)
    case Limit(input, _) => Probes(input, c)
    case Project(input, _) => Probes(input, c)
  }

  /** The value probed for exists and is not too large to look up. */
  predicate ProbeOk(con: Constraint, ps: seq<Value>) {
    SqlExpr.Evaluate(con.bound, [], ps).Ok? && ProbeFits(con, ps)
  }

  predicate ProbesOk(probes: seq<(IndexMeta, Constraint)>, ps: seq<Value>) {
    forall i {:trigger probes[i]} :: 0 <= i < |probes| ==> ProbeOk(probes[i].1, ps)
  }

  /** The index is asked for one value. */
  predicate Narrowing(con: Constraint, ps: seq<Value>) {
    var v := SqlExpr.Evaluate(con.bound, [], ps);
    con.op.Eq? && v.Ok? && !v.value.IsNull()
  }

  predicate ProbeFits(con: Constraint, ps: seq<Value>) {
    Narrowing(con, ps) ==> ValueFits(SqlExpr.Evaluate(con.bound, [], ps).value)
  }

  /** No value an index is asked for is over 16 MiB. */
  predicate ProbesFit(probes: seq<(IndexMeta, Constraint)>, ps: seq<Value>) {
    forall i {:trigger probes[i]} :: 0 <= i < |probes| ==> ProbeFits(probes[i].1, ps)
  }

  /** Once parameters are validated, only size can fail a probe. */
  lemma {:induction false} ValidProbes(p: LogicalPlan, c: Catalog, specs: seq<ParameterSpec>, ps: seq<Value>)
    requires ParametersBound(p, specs) && ValidateParameters(specs, ps).None?
    ensures ProbesOk(Probes(p, c), ps) <==> ProbesFit(Probes(p, c), ps)
    decreases p
  {
    hide ChooseIndex, ValidateParameters, Specified, ProbeFits;
    match p
    case Scan(_) =>
    case Filter(input, x) =>
      if input.Scan? && ChooseIndex(input.table, x, c).Some? {
        ProbeHasValue(input.table, x, c, specs, ps);
      } else {
        ValidProbes(input, c, specs, ps);
      }
    case Join(left, right, _) =>
      ValidProbes(left, c, specs, ps);
      ValidProbes(right, c, specs, ps);
      BothFit(Probes(left, c), Probes(right, c), ps);
    case _ => ValidProbes(p.input, c, specs, ps);
  }

  lemma BothFit(a: seq<(IndexMeta, Constraint)>, b: seq<(IndexMeta, Constraint)>, ps: seq<Value>)
    ensures ProbesFit(a + b, ps) <==> ProbesFit(a, ps) && ProbesFit(b, ps)
    ensures ProbesOk(a + b, ps) <==> ProbesOk(a, ps) && ProbesOk(b, ps)
  {
    hide ProbeFits, ProbeOk;
    var all := a + b;
    assert forall i :: 0 <= i < |a| ==> all[i] == a[i];
    assert forall i :: 0 <= i < |b| ==> all[|a| + i] == b[i];
  }

  /** The predicate keeps the same of both, in the same order. */
  predicate KeepsSame(few: seq<Row>, all: seq<Row>, x: Expr, ps: seq<Value>) {
    |few| <= |all| && FilterRows(Plain(few), x, ps) == FilterRows(Plain(all), x, ps)
  }

  /** The index leaves out nothing that the predicate would keep, in this snapshot. */
  predicate FilterAgrees(e: Engine, t: Transaction, table: BoundTable, x: Expr, ps: seq<Value>)
    requires ChooseIndex(table, x, e.catalog).Some?
  {
    var (index, con) := ChooseIndex(table, x, e.catalog).value;
    && index.id in e.catalog.indexes && e.catalog.indexes[index.id] == index
    && (Narrowing(con, ps) ==>
          KeepsSame(ScanSecondary(e, t, index, SqlExpr.Evaluate(con.bound, [], ps).value),
                    ScanTable(e, t, table.meta.id), x, ps))
  }

  predicate PlanAgrees(e: Engine, t: Transaction, p: LogicalPlan, ps: seq<Value>) {
    match p
    case Scan(_) => true
    case Filter(input, x) =>
      if input.Scan? && ChooseIndex(input.table, x, e.catalog).Some? then FilterAgrees(e, t, input.table, x, ps)
      else PlanAgrees(e, t, input, ps)
    case Join(left, right, _) => PlanAgrees(e, t, left, ps) && PlanAgrees(e, t, right, ps)
    case Aggregated(input, _, _) => PlanAgrees(e, t, input, ps)
    case Sort(input, _) => PlanAgrees(e, t, input, ps)
    case Limit(input, _) => PlanAgrees(e, t, input, ps)
    case Project(input, _) => PlanAgrees(e, t, input, ps)
  }

  lemma {:induction false} IndexOfTable(c: Catalog, table: TableId, x: IndexMeta)
    requires x in IndexesOf(c, table)
    ensures x.table == table
  {
    var xs, ids := IndexesOf(c, table), SortedIds(set i | i in c.indexes && c.indexes[i].table == table);
    var n :| 0 <= n < |xs| && xs[n] == x;
    assert ids[n] in ids;
  }

  // ------------------------------------------------------------------- equivalence

  lemma ProbeExec(con: Constraint, ps: seq<Value>)
    requires IsProbe(con.bound)
    ensures EvaluateExec(con.bound, ExecRow([], []), ps) == SqlExpr.Evaluate(con.bound, [], ps)
  {
  }

  lemma ChosenIsProbe(table: BoundTable, x: Expr, c: Catalog)
    requires ChooseIndex(table, x, c).Some?
    ensures IsProbe(ChooseIndex(table, x, c).value.1.bound)
    ensures ChooseIndex(table, x, c).value.0.table == table.meta.id
  {
    hide ChooseIndex, IndexesOf;
    var (index, con) := ChooseIndex(table, x, c).value;
    ChosenConjunct(table, x, c);
    var y, column :| Conjunct(x, y) && Narrows(y, column, con) && column.table == table.meta.id
        && index in IndexesOf(c, table.meta.id);
    IndexOfTable(c, table.meta.id, index);
  }

  lemma {:induction false} PlainLength(rows: seq<Row>)
    ensures |Plain(rows)| == |rows|
    decreases |rows|
  {
    if rows != [] {
      PlainLength(rows[1..]);
    }
  }

  lemma {:induction false} FewerRows(rows: seq<Row>, column: nat, v: Value)
    ensures |RowsWith(rows, column, v)| <= |rows|
    decreases |rows|
  {
    if rows != [] {
      FewerRows(rows[1..], column, v);
    }
  }

  /** A filtered index access against a filtered scan. */
  lemma FilterSame(e: Engine, t: Transaction, table: BoundTable, x: Expr, ps: seq<Value>)
    requires ChooseIndex(table, x, e.catalog).Some? && FilterAgrees(e, t, table, x, ps)
    requires Execute(e, t, Filtered(SeqScan(table), x), ps).Ok?
    ensures var (index, con) := ChooseIndex(table, x, e.catalog).value;
            var r := Execute(e, t, Filtered(IndexScan(table, index, con), x), ps);
            if ProbeOk(con, ps) then r == Execute(e, t, Filtered(SeqScan(table), x), ps) else r.Err?
  {
    hide ChooseIndex, FilterRows, ScanTable, ScanSecondary, Plain;
    var (index, con) := ChooseIndex(table, x, e.catalog).value;
    ChosenIsProbe(table, x, e.catalog);
    ProbeExec(con, ps);
    var rows := ScanTable(e, t, table.meta.id);
    PlainLength(rows);
    assert Execute(e, t, SeqScan(table), ps) == Ok(Plain(rows));
    var probe := Execute(e, t, IndexScan(table, index, con), ps);
    if ProbeOk(con, ps) && Narrowing(con, ps) {
      var few := ScanSecondary(e, t, index, SqlExpr.Evaluate(con.bound, [], ps).value);
      PlainLength(few);
      assert probe == Ok(Plain(few));
    } else if ProbeOk(con, ps) {
      assert probe == Ok(Plain(rows));
    } else {
      assert probe.Err?;
    }
  }

  /** Every key a hash join meets can be encoded: those of the inner table, null or not,
      and those of the rows joined so far. */
  predicate JoinFits(e: Engine, t: Transaction, p: LogicalPlan, ps: seq<Value>)
    requires p.Join?
  {
    p.right.Scan? ==>
      var keys := HashJoinKeys(p.on, {p.right.table.meta.id});
      var outers, inners := Execute(e, t, Naive(p.left), ps), Execute(e, t, SeqScan(p.right.table), ps);
      keys.Some? && outers.Ok? && inners.Ok? ==>
        KeysFit(outers.value, keys.value.0.slot) && KeysFit(inners.value, keys.value.1.column)
  }

  predicate JoinsFit(e: Engine, t: Transaction, p: LogicalPlan, ps: seq<Value>) {
    match p
    case Scan(_) => true
    case Filter(input, _) => JoinsFit(e, t, input, ps)
    case Join(left, _, _) => JoinsFit(e, t, left, ps) && JoinFits(e, t, p, ps)
    case Aggregated(input, _, _) => JoinsFit(e, t, input, ps)
    case Sort(input, _) => JoinsFit(e, t, input, ps)
    case Limit(input, _) => JoinsFit(e, t, input, ps)
    case Project(input, _) => JoinsFit(e, t, input, ps)
  }

  lemma JoinSame(e: Engine, t: Transaction, p: LogicalPlan, ps: seq<Value>)
    requires p.Join? && WellBound(p, e.catalog) && JoinInPlace(p.left, p.right, p.on) && TablesConform(e, t, false)
    requires Execute(e, t, Naive(p), ps).Ok? && Execute(e, t, Optimize(p.left, e.catalog), ps)
             == Execute(e, t, Naive(p.left), ps)
    ensures var r := Execute(e, t, Optimize(p, e.catalog), ps);
            if JoinFits(e, t, p, ps) then r == Execute(e, t, Naive(p), ps) else r.Err?
  {
    hide Conforming, JoinNested, HashJoin, ScanTable, TablesConform, HashJoinKeys, Bound, ChooseJoin, KeysFit;
    var c := e.catalog;
    var table := p.right.table;
    assert Optimize(p.right, c) == SeqScan(table) == Naive(p.right);
    assert PlanTables(SeqScan(table)) == {table.meta.id};
    var outers, inners := Execute(e, t, Naive(p.left), ps).value, Execute(e, t, SeqScan(table), ps).value;
    var keys, algorithm := HashJoinKeys(p.on, {table.meta.id}), ChooseJoin(p.right, p.on, c);
    assert Execute(e, t, Naive(p), ps) == Within(JoinRows(outers, inners, p.on, NestedLoop, {table.meta.id}, ps));
    assert Execute(e, t, Optimize(p, c), ps) == Within(JoinRows(outers, inners, p.on, algorithm, {table.meta.id}, ps));
    if keys.Some? {
      FromConforms(e, t, p.left, ps, false);
      ScanConforms(e, t, table, ps, false);
      KeysTyped(p, keys.value.0, keys.value.1);
      HashJoinSame(outers, inners, Columns(p.left), table.meta.columns, keys.value.0, keys.value.1, p.on, ps);
      Hashes(p.right, p.on, c);
    }
  }

  /** An equality that could be hashed is. */
  lemma Hashes(right: LogicalPlan, on: Expr, c: Catalog)
    requires right.Scan? && HashJoinKeys(on, {right.table.meta.id}).Some?
    ensures ChooseJoin(right, on, c) != NestedLoop
  {
  }

  lemma KeysTyped(p: LogicalPlan, a: BoundColumn, b: BoundColumn)
    requires p.Join? && IsFrom(p) && Bound(p.on, Tables(p))
             && HashJoinKeys(p.on, {p.right.table.meta.id}) == Some((a, b))
    requires KeysInPlace(a, b, |Columns(p.left)|)
    ensures Equates(p.on, a, b) && b.column < |p.right.table.meta.columns|
            && a.typeTag == Columns(p.left)[a.slot].typeTag
  {
    assert Bound(p.on.left, Tables(p)) && Bound(p.on.right, Tables(p));
    assert ColumnBound(a, Tables(p)) && ColumnBound(b, Tables(p));
    var i :| 0 <= i < |Tables(p)| && BoundTo(a, Tables(p)[i]);
    var j :| 0 <= j < |Tables(p)| && BoundTo(b, Tables(p)[j]);
    SlotTyped(p, a, i);
    SlotTyped(p, b, j);
    assert Columns(p.right) == p.right.table.meta.columns && Columns(p) == Columns(p.left) + Columns(p.right);
  }

  /** Plan equivalence: where the naive plan succeeds, the optimized one returns the same
      rows in the same order exactly when every index probe has a value to look up and every
      key of a hash join can be encoded; otherwise it fails. */
  lemma {:induction false} PlanEquivalence(e: Engine, t: Transaction, p: LogicalPlan, ps: seq<Value>)
    requires WellBound(p, e.catalog) && JoinsInPlace(p) && TablesConform(e, t, false) && PlanAgrees(e, t, p, ps)
    requires Execute(e, t, Naive(p), ps).Ok?
    ensures var r := Execute(e, t, Optimize(p, e.catalog), ps);
            if ProbesOk(Probes(p, e.catalog), ps) && JoinsFit(e, t, p, ps) then r == Execute(e, t, Naive(p), ps)
            else r.Err?
    decreases p
  {
    hide ChooseIndex, FilterRows, JoinRows, AggregateRows, SortRows, LimitRows, ProjectRows, ProbeOk, FilterAgrees,
         TablesConform, Bound, ScanRows, IndexRows, PlanTables, ChooseJoin, Tables, JoinFits;
    var c := e.catalog;
    match p
    case Scan(_) =>
    case Filter(input, x) =>
      if input.Scan? && ChooseIndex(input.table, x, c).Some? {
        assert Probes(p, c)[0] == ChooseIndex(input.table, x, c).value;
        assert Naive(input) == SeqScan(input.table) && JoinsFit(e, t, input, ps);
        FilterSame(e, t, input.table, x, ps);
      } else {
        PlanEquivalence(e, t, input, ps);
      }
    case Join(left, right, on) =>
      assert Probes(right, c) == [] && Probes(p, c) == Probes(left, c) + [] == Probes(left, c);
      PlanEquivalence(e, t, left, ps);
      if ProbesOk(Probes(p, c), ps) && JoinsFit(e, t, left, ps) {
        JoinSame(e, t, p, ps);
      }
    case _ => PlanEquivalence(e, t, p.input, ps);
  }

  /** Rows whose values can all be encoded make every hash join's keys fit. */
  lemma {:induction false} SizedJoinsFit(e: Engine, t: Transaction, p: LogicalPlan, ps: seq<Value>)
    requires WellBound(p, e.catalog) && TablesConform(e, t, true)
    ensures JoinsFit(e, t, p, ps)
    decreases p
  {
    hide TablesConform, Execute, HashJoinKeys, Tables, Bound, Conforming, KeysFit;
    match p
    case Scan(_) =>
    case Join(left, right, on) =>
      SizedJoinsFit(e, t, left, ps);
      var keys := HashJoinKeys(on, {right.table.meta.id});
      var outers, inners := Execute(e, t, Naive(left), ps), Execute(e, t, SeqScan(right.table), ps);
      if keys.Some? && outers.Ok? && inners.Ok? {
        FromConforms(e, t, left, ps, true);
        SizedKeysFit(outers.value, Columns(left), keys.value.0.slot);
        ScanConforms(e, t, right.table, ps, true);
        SizedKeysFit(inners.value, right.table.meta.columns, keys.value.1.column);
      }
    case _ => SizedJoinsFit(e, t, p.input, ps);
  }

  lemma SizedKeysFit(rows: seq<ExecRow>, columns: seq<Column>, slot: nat)
    requires Conforming(rows, columns, true)
    ensures KeysFit(rows, slot)
  {
    forall i | 0 <= i < |rows| ensures FitsAt(rows[i].row, slot) {
      assert rows[i] in rows;
    }
  }

  // ------------------------------------------------------------- exact conditions

  /** Whatever the rows, hashing on these columns returns what nested loops return exactly
      when the keys of both sides can be encoded. */
  ghost predicate HashAgrees(on: Expr, a: BoundColumn, b: BoundColumn, left: seq<Column>, right: seq<Column>) {
    forall outers, inners, ps {:trigger HashJoin(outers, inners, ColumnRef(a), b.column, on, ps)} ::
      Conforming(outers, left, false) && Conforming(inners, right, false)
      && JoinNested(outers, inners, on, ps, []).Ok? ==>
        (HashJoin(outers, inners, ColumnRef(a), b.column, on, ps) == JoinNested(outers, inners, on, ps, [])
         <==> KeysFit(outers, a.slot) && KeysFit(inners, b.column))
  }

  /** Two different values of a type. */
  function Sample(tag: nat, marked: bool): Value {
    if tag == 1 then Int64(if marked then 1 else 0)
    else if tag == 2 then Bool(marked)
    else if tag == 3 then Text(if marked then [0] else [])
    else Blob(if marked then [0] else [])
  }

  function SampleRow(columns: seq<Column>, marked: nat): Row {
    seq(|columns|, i requires 0 <= i < |columns| => Sample(columns[i].typeTag, i == marked))
  }

  predicate HaveTypes(columns: seq<Column>) {
    forall i :: 0 <= i < |columns| ==> 1 <= columns[i].typeTag <= 4
  }

  lemma SampleConforms(columns: seq<Column>, marked: nat)
    requires HaveTypes(columns)
    ensures Conforming([ExecRow(SampleRow(columns, marked), [])], columns, true)
    ensures Conforming([ExecRow(SampleRow(columns, marked), [])], columns, false)
  {
    var row := SampleRow(columns, marked);
    forall i | 0 <= i < |row| ensures ValueFits(row[i]) && !row[i].IsNull() && row[i].TypeTag() == columns[i].typeTag {
    }
  }

  lemma HoldsOnEqual(on: Expr, a: BoundColumn, b: BoundColumn, r: ExecRow, ps: seq<Value>)
    requires Equates(on, a, b) && a.slot < |r.row| && b.slot < |r.row| && r.row[a.slot] == r.row[b.slot]
             && !r.row[a.slot].IsNull()
    requires a.typeTag == b.typeTag == r.row[a.slot].TypeTag()
    ensures PredicateExec(on, r, ps) == Ok(true)
  {
    var v := r.row[a.slot];
    assert !ContainsAggregate(ColumnRef(a)) && !ContainsAggregate(ColumnRef(b)) && !ContainsAggregate(on);
    assert SqlExpr.Evaluate(ColumnRef(a), r.row, ps) == Ok(v) == SqlExpr.Evaluate(ColumnRef(b), r.row, ps);
    assert SqlExpr.Evaluate(on, r.row, ps) == Compare(v, Eq, v);
  }

  /** An outer key outside the outer row. */
  lemma OuterMisplaced(on: Expr, a: BoundColumn, b: BoundColumn, left: seq<Column>, right: seq<Column>)
    requires HaveTypes(left) && a.slot >= |left|
    ensures !HashAgrees(on, a, b, left, right)
  {
    var outer := ExecRow(SampleRow(left, |left|), []);
    SampleConforms(left, |left|);
    SizedKeysFit([outer], left, a.slot);
    NothingConforms(right, false);
    NoKeys(b.column);
    assert EvaluateExec(ColumnRef(a), outer, []).Err?;
    assert JoinInner(outer, [], on, [], []) == Ok([]);
    assert [outer][1..] == [] && JoinNested([outer], [], on, [], []) == Ok([]);
    assert HashJoin([outer], [], ColumnRef(a), b.column, on, []).Err?;
  }

  /** An inner key that is some other slot: the row that matches is in the wrong bucket. */
  lemma InnerMisplaced(on: Expr, a: BoundColumn, b: BoundColumn, left: seq<Column>, right: seq<Column>)
    requires Equates(on, a, b) && HaveTypes(left) && HaveTypes(right) && b.column < |right|
    requires a.slot < |left| && b.slot < |left + right| && b.slot != |left| + b.column
    requires a.typeTag == b.typeTag == (left + right)[a.slot].typeTag == (left + right)[b.slot].typeTag
    ensures !HashAgrees(on, a, b, left, right)
  {
    hide JoinInner, PredicateExec, EvaluateExec, Conforming;
    var outer, inner := ExecRow(SampleRow(left, |left|), []), ExecRow(SampleRow(right, b.column), []);
    var joined := Combine(outer, inner);
    SampleConforms(left, |left|);
    SizedKeysFit([outer], left, a.slot);
    SampleConforms(right, b.column);
    SizedKeysFit([inner], right, b.column);
    var v := outer.row[a.slot];
    assert v == Sample(a.typeTag, false) == joined.row[b.slot] == joined.row[a.slot];
    HoldsOnEqual(on, a, b, joined, []);
    OneMatch(outer, inner, on);
    var key := inner.row[b.column];
    assert key != v && ValueFits(key) && ValueFits(v);
    assert EncodeValue(key) != EncodeValue(v) by {
      if EncodeValue(key) == EncodeValue(v) {
        SameValue(key, v);
      }
    }
    EmptyBucket(outer, inner, a, b, on, v);
    assert JoinNested([outer], [inner], on, [], []) == Ok([joined]);
    assert HashJoin([outer], [inner], ColumnRef(a), b.column, on, []) == Ok([]);
  }

  lemma OneMatch(outer: ExecRow, inner: ExecRow, on: Expr)
    requires PredicateExec(on, Combine(outer, inner), []) == Ok(true)
    ensures JoinNested([outer], [inner], on, [], []) == Ok([Combine(outer, inner)])
  {
    var joined := Combine(outer, inner);
    var none: seq<ExecRow> := [];
    assert none + [joined] == [joined];
    assert [inner][1..] == [] && JoinInner(outer, [], on, [], none + [joined]) == Ok([joined]);
    assert JoinInner(outer, [inner], on, [], []) == Ok([joined]);
    assert [outer][1..] == [] && JoinNested([], [inner], on, [], [joined]) == Ok([joined]);
  }

  lemma EmptyBucket(outer: ExecRow, inner: ExecRow, a: BoundColumn, b: BoundColumn, on: Expr, v: Value)
    requires a.slot < |outer.row| && outer.row[a.slot] == v && !v.IsNull() && v.TypeTag() == a.typeTag && ValueFits(v)
    requires b.column < |inner.row| && !inner.row[b.column].IsNull() && ValueFits(inner.row[b.column])
    requires EncodeValue(inner.row[b.column]) != EncodeValue(v)
    ensures HashJoin([outer], [inner], ColumnRef(a), b.column, on, []) == Ok([])
  {
    hide EncodeValue;
    var key := EncodeValue(v);
    assert [inner][1..] == [] && BucketError([inner], b.column) == None;
    assert Bucket([inner], b.column, key) == [];
    assert EvaluateExec(ColumnRef(a), outer, []) == Ok(v);
    assert JoinInner(outer, [], on, [], []) == Ok([]);
    assert [outer][1..] == [] && JoinHashed([], [inner], ColumnRef(a), b.column, on, [], []) == Ok([]);
  }

  /** A hash join is right for all rows whose keys can be encoded exactly when the column it takes for the outer one
      lies in the outer row and the one it takes for the inner one is its own slot. */
  lemma HashJoinExactly(on: Expr, a: BoundColumn, b: BoundColumn, left: seq<Column>, right: seq<Column>)
    requires Equates(on, a, b) && HaveTypes(left) && HaveTypes(right) && b.column < |right|
    requires a.slot < |left + right| && b.slot < |left + right|
    requires a.typeTag == b.typeTag == (left + right)[a.slot].typeTag == (left + right)[b.slot].typeTag
    ensures HashAgrees(on, a, b, left, right) <==> KeysInPlace(a, b, |left|)
  {
    if KeysInPlace(a, b, |left|) {
      forall outers, inners, ps | Conforming(outers, left, false) && Conforming(inners, right, false)
                                  && JoinNested(outers, inners, on, ps, []).Ok?
        ensures HashJoin(outers, inners, ColumnRef(a), b.column, on, ps) == JoinNested(outers, inners, on, ps, [])
                <==> KeysFit(outers, a.slot) && KeysFit(inners, b.column)
      {
        HashJoinSame(outers, inners, left, right, a, b, on, ps);
      }
    } else if a.slot >= |left| {
      OuterMisplaced(on, a, b, left, right);
    } else {
      InnerMisplaced(on, a, b, left, right);
    }
  }
}
