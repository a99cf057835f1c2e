/** The planner keeps meaning: an optimized plan returns the rows of the naive one. */
module PlanProofs {
  import opened Wrappers
  import opened Ordering
  import opened OrderedKeys
  import opened RowCodec
  import opened Mvcc
  import opened SqlExpr
  import opened QueryPlan
  import opened Executor

  // ------------------------------------------------------------------ bound plans

  /** A column reference names a column of a table in scope, at its slot, with its type. */
  predicate ColumnBound(c: BoundColumn, tables: seq<BoundTable>) {
    exists i :: 0 <= i < |tables| && BoundTo(c, tables[i])
  }

  predicate BoundTo(c: BoundColumn, table: BoundTable) {
    && c.table == table.meta.id && c.column < |table.meta.columns|
    && c.slot == table.offset + c.column && c.typeTag == table.meta.columns[c.column].typeTag
  }

  predicate Bound(x: Expr, tables: seq<BoundTable>) {
    match x
    case ColumnRef(c) => ColumnBound(c, tables)
    case Unary(_, a) => Bound(a, tables)
    case NullTest(a, _) => Bound(a, tables)
    case Binary(a, _, b) => Bound(a, tables) && Bound(b, tables)
    case _ => true
  }

  /** The tables of a FROM clause, in order, and the columns of its rows. */
  function Tables(p: LogicalPlan): seq<BoundTable> {
    match p
    case Scan(table) => [table]
    case Join(left, right, _) => Tables(left) + Tables(right)
    case _ => []
  }

  function Columns(p: LogicalPlan): seq<Column> {
    match p
    case Scan(table) => table.meta.columns
    case Join(left, right, _) => Columns(left) + Columns(right)
    case _ => []
  }

  /** A FROM clause: joins nest to the left and slots run through the tables in order. */
  predicate IsFrom(p: LogicalPlan) {
    match p
    case Scan(table) => table.offset == 0
    case Join(left, right, _) => IsFrom(left) && right.Scan? && right.table.offset == |Columns(left)|
    case _ => false
  }

  /** What binding a query establishes. */
  predicate WellBound(p: LogicalPlan, c: Catalog) {
    match p
    case Scan(table) => table.meta.id in c.tables && c.tables[table.meta.id] == table.meta
    case Filter(input, x) =>
      && WellBound(input, c)
      && (input.Scan? ==> input.table.offset == 0 && Bound(x, [input.table]) && !ContainsAggregate(x))
    case Join(left, right, on) =>
      WellBound(left, c) && WellBound(right, c) && IsFrom(p) && Bound(on, Tables(p)) && !ContainsAggregate(on)
    case Aggregated(input, _, _) => WellBound(input, c)
    case Sort(input, _) => WellBound(input, c)
    case Limit(input, _) => WellBound(input, c)
    case Project(input, _) => WellBound(input, c)
  }

  /** What binding a query establishes about its parameters. */
  predicate ParametersBound(p: LogicalPlan, specs: seq<ParameterSpec>) {
    match p
    case Scan(_) => true
    case Filter(input, x) => ParametersBound(input, specs) && Specified(x, specs)
    case Join(left, right, on) => ParametersBound(left, specs) && ParametersBound(right, specs) && Specified(on, specs)
    case Aggregated(input, groupBy, aggregates) =>
      && ParametersBound(input, specs)
      && (forall i :: 0 <= i < |groupBy| ==> Specified(groupBy[i], specs))
      && (forall i :: 0 <= i < |aggregates| ==> Specified(aggregates[i], specs))
    case Sort(input, orderBy) => ParametersBound(input, specs) && forall i ::
        0 <= i < |orderBy| ==> Specified(orderBy[i].key, specs)
    case Limit(input, limit) => ParametersBound(input, specs) && Specified(limit, specs)
    case Project(input, expressions) =>
      ParametersBound(input, specs) && forall i :: 0 <= i < |expressions| ==> Specified(expressions[i], specs)
  }

  // ----------------------------------------------------------------------- filters

  lemma {:induction false} ChosenConjunct(table: BoundTable, x: Expr, c: Catalog)
    requires ChooseIndex(table, x, c).Some?
    ensures var (index, con) := ChooseIndex(table, x, c).value;
            exists y, column {:trigger Conjunct(x, y), Narrows(y, column, con)} ::
              Conjunct(x, y) && Narrows(y, column, con) && column.table == table.meta.id
                && column.column == index.column
              && index in IndexesOf(c, table.meta.id)
    decreases x
  {
    var (index, con) := ChooseIndex(table, x, c).value;
    if x.Binary? && x.op.And? {
      if ChooseIndex(table, x.left, c).Some? {
        ChosenConjunct(table, x.left, c);
        var y, column :| Conjunct(x.left, y) && Narrows(y, column, con) && column.table == table.meta.id
            && column.column == index.column;
        assert Conjunct(x, y);
      } else {
        ChosenConjunct(table, x.right, c);
        var y, column :| Conjunct(x.right, y) && Narrows(y, column, con) && column.table == table.meta.id
            && column.column == index.column;
        assert Conjunct(x, y);
      }
    } else {
      var column := Sargable(x).value.0;
      FoundIndex(IndexesOf(c, table.meta.id), column.column);
      assert Conjunct(x, x) && Narrows(x, column, con);
    }
  }

  /** The comparison the index constraint was read off. */
  predicate Narrows(y: Expr, column: BoundColumn, con: Constraint) {
    Sargable(y) == Some((column, con.op, con.bound)) && con.column == column.column
  }

  lemma {:induction false} FoundIndex(xs: seq<IndexMeta>, column: nat)
    requires FindIndex(xs, column).Some?
    ensures FindIndex(xs, column).value in xs && FindIndex(xs, column).value.column == column
  {
    if xs[0].column != column {
      FoundIndex(xs[1..], column);
    }
  }

  lemma {:induction false} ConjunctBound(x: Expr, y: Expr, tables: seq<BoundTable>)
    requires Conjunct(x, y) && Bound(x, tables)
    ensures Bound(y, tables)
    decreases x
  {
    if x != y {
      if Conjunct(x.left, y) {
        ConjunctBound(x.left, y, tables);
      } else {
        ConjunctBound(x.right, y, tables);
      }
    }
  }

  lemma {:induction false} ConjunctSpecified(x: Expr, y: Expr, specs: seq<ParameterSpec>)
    requires Conjunct(x, y) && Specified(x, specs)
    ensures Specified(y, specs)
    decreases x
  {
    if x != y {
      if Conjunct(x.left, y) {
        ConjunctSpecified(x.left, y, specs);
      } else {
        ConjunctSpecified(x.right, y, specs);
      }
    }
  }

  /** With validated parameters the value an index is probed for exists. */
  lemma ProbeHasValue(table: BoundTable, x: Expr, c: Catalog, specs: seq<ParameterSpec>, ps: seq<Value>)
    requires ChooseIndex(table, x, c).Some? && Specified(x, specs) && ValidateParameters(specs, ps).None?
    ensures SqlExpr.Evaluate(ChooseIndex(table, x, c).value.1.bound, [], ps).Ok?
  {
    hide ChooseIndex, ValidateParameters;
    var (index, con) := ChooseIndex(table, x, c).value;
    ChosenConjunct(table, x, c);
    var y, column :| Conjunct(x, y) && Narrows(y, column, con) && column.table == table.meta.id
        && column.column == index.column;
    ConjunctSpecified(x, y, specs);
    if con.bound.Parameter? {
      ParameterHasValue(con.bound, specs, [], ps);
    }
  }

  /** An equality holds exactly where both sides have one non-null value. */
  lemma EqualityHolds(x: Expr, row: Row, ps: seq<Value>)
    requires x.Binary? && x.op.Eq? && PredicateMatches(x, row, ps) == Ok(true)
    ensures SqlExpr.Evaluate(x.left, row, ps).Ok? && !SqlExpr.Evaluate(x.left, row, ps).value.IsNull()
    ensures SqlExpr.Evaluate(x.left, row, ps) == SqlExpr.Evaluate(x.right, row, ps)
  {
  }

  /** Where an equality with a probe holds, the column carries the probed value. */
  lemma ProbeCarried(y: Expr, column: BoundColumn, con: Constraint, row: Row, ps: seq<Value>, v: Value)
    requires Narrows(y, column, con) && con.op.Eq? && SqlExpr.Evaluate(con.bound, [], ps) == Ok(v)
    requires PredicateMatches(y, row, ps) == Ok(true)
    ensures column.slot < |row| && row[column.slot] == v
  {
    EqualityHolds(y, row, ps);
    assert SqlExpr.Evaluate(con.bound, row, ps) == Ok(v);
    assert SqlExpr.Evaluate(ColumnRef(column), row, ps) == Ok(v);
  }

  /** The rows an equality probe leaves out are rows the predicate rejects. */
  lemma KeptRowsCarry(table: BoundTable, x: Expr, c: Catalog, row: Row, ps: seq<Value>, v: Value)
    requires ChooseIndex(table, x, c).Some? && table.offset == 0 && Bound(x, [table])
    requires var (_, con) := ChooseIndex(table, x, c).value; con.op.Eq? && SqlExpr.Evaluate(con.bound, [], ps) == Ok(v)
    requires PredicateMatches(x, row, ps) == Ok(true)
    ensures Cell(Some(row), ChooseIndex(table, x, c).value.0.column) == Some(v)
  {
    hide Sargable, ChooseIndex, PredicateMatches;
    var (index, con) := ChooseIndex(table, x, c).value;
    ChosenConjunct(table, x, c);
    var y, column :| Conjunct(x, y) && Narrows(y, column, con) && column.table == table.meta.id
        && column.column == index.column;
    ConjunctHolds(x, y, row, ps);
    ConjunctBound(x, y, [table]);
    ProbeCarried(y, column, con, row, ps, v);
    ProbeBound(y, column, con, table);
  }

  lemma ProbeBound(y: Expr, column: BoundColumn, con: Constraint, table: BoundTable)
    requires Narrows(y, column, con) && Bound(y, [table]) && table.offset == 0
    ensures column.slot == column.column
  {
    assert ColumnBound(column, [table]);
  }

  /** Filtering fewer candidates gives the same rows when the others would be rejected. */
  lemma {:induction false} FilterFewer(rows: seq<Row>, column: nat, v: Value, x: Expr, ps: seq<Value>)
    requires !ContainsAggregate(x) && FilterRows(Plain(rows), x, ps).Ok?
    requires forall row :: row in rows && PredicateMatches(x, row, ps) == Ok(true) ==>
                             Cell(Some(row), column) == Some(v)
    ensures FilterRows(Plain(RowsWith(rows, column, v)), x, ps) == FilterRows(Plain(rows), x, ps)
    ensures |Plain(RowsWith(rows, column, v))| <= |Plain(rows)|
    decreases |rows|
  {
    if rows != [] {
      var row, rest := rows[0], rows[1..];
      assert row in rows && forall r :: r in rest ==> r in rows;
      assert Plain(rows)[0] == ExecRow(row, []) && Plain(rows)[1..] == Plain(rest);
      assert PredicateExec(x, ExecRow(row, []), ps) == PredicateMatches(x, row, ps);
      FilterFewer(rest, column, v, x, ps);
      var fewer := RowsWith(rest, column, v);
      if Cell(Some(row), column) == Some(v) {
        assert RowsWith(rows, column, v) == [row] + fewer;
        assert ([row] + fewer)[1..] == fewer;
        assert Plain([row] + fewer)[1..] == Plain(fewer);
      } else {
        assert RowsWith(rows, column, v) == fewer by { assert [] + fewer == fewer; }
        var kept := FilterRows(Plain(rest), x, ps).value;
        assert FilterRows(Plain(rows), x, ps).value == [] + kept == kept;
      }
    }
  }

  // ------------------------------------------------------------------------- joins

  /** Inner rows that the predicate rejects may be left out. */
  lemma {:induction false} JoinFewer(outer: ExecRow, inners: seq<ExecRow>, column: nat, key: Bytes, on: Expr,
                                     ps: seq<Value>, output: seq<ExecRow>)
    requires JoinInner(outer, inners, on, ps, output).Ok?
    requires forall r :: r in inners && PredicateExec(on, Combine(outer, r), ps) == Ok(true) ==>
                           InnerKey(r, column) == Ok(Some(key))
    ensures JoinInner(outer, Bucket(inners, column, key), on, ps, output) == JoinInner(outer, inners, on, ps, output)
    decreases |inners|
  {
    if inners != [] {
      var r, rest := inners[0], inners[1..];
      assert r in inners && forall q :: q in rest ==> q in inners;
      var joined := Combine(outer, r);
      var keep := PredicateExec(on, joined, ps).value;
      var longer := if keep then output + [joined] else output;
      JoinFewer(outer, rest, column, key, on, ps, longer);
      var bucket := Bucket(rest, column, key);
      if InnerKey(r, column) == Ok(Some(key)) {
        assert Bucket(inners, column, key) == [r] + bucket;
        assert ([r] + bucket)[0] == r && ([r] + bucket)[1..] == bucket;
      } else {
        assert Bucket(inners, column, key) == bucket by { assert [] + bucket == bucket; }
      }
    }
  }

  /** An outer row the predicate always rejects adds nothing. */
  lemma {:induction false} JoinNothing(outer: ExecRow, inners: seq<ExecRow>, on: Expr, ps: seq<Value>,
                                       output: seq<ExecRow>)
    requires JoinInner(outer, inners, on, ps, output).Ok?
    requires forall r :: r in inners ==> PredicateExec(on, Combine(outer, r), ps) != Ok(true)
    ensures JoinInner(outer, inners, on, ps, output) == Ok(output)
    decreases |inners|
  {
    if inners != [] {
      assert inners[0] in inners && forall q :: q in inners[1..] ==> q in inners;
      JoinNothing(outer, inners[1..], on, ps, output);
    }
  }

  predicate ValuesFit(row: Row) {
    forall i :: 0 <= i < |row| ==> ValueFits(row[i])
  }

  /** A row fits its columns and, where sizes are asked about, every value can be encoded. */
  predicate RowFits(columns: seq<Column>, row: Row, sized: bool) {
    RowOk(columns, row) && (sized ==> ValuesFit(row))
  }

  ghost predicate Conforming(rows: seq<ExecRow>, columns: seq<Column>, sized: bool) {
    forall r {:trigger r in rows} :: r in rows ==> RowFits(columns, r.row, sized)
  }

  predicate FitsAt(row: Row, slot: nat) {
    slot < |row| ==> ValueFits(row[slot])
  }

  /** Every value of a join column can be encoded. */
  predicate KeysFit(rows: seq<ExecRow>, slot: nat) {
    forall i {:trigger rows[i]} :: 0 <= i < |rows| ==> FitsAt(rows[i].row, slot)
  }

  /** The outer column lies in the outer row and the inner one where its table says. */
  predicate KeysInPlace(outer: BoundColumn, inner: BoundColumn, width: nat) {
    outer.slot < width && inner.slot == width + inner.column
  }

  predicate Equates(on: Expr, a: BoundColumn, b: BoundColumn) {
    on == Binary(ColumnRef(a), Eq, ColumnRef(b)) || on == Binary(ColumnRef(b), Eq, ColumnRef(a))
  }

  lemma ColumnsEqual(on: Expr, a: BoundColumn, b: BoundColumn, r: ExecRow, ps: seq<Value>)
    requires Equates(on, a, b) && PredicateExec(on, r, ps) == Ok(true)
    ensures a.slot < |r.row| && b.slot < |r.row| && r.row[a.slot] == r.row[b.slot] && !r.row[a.slot].IsNull()
  {
    assert !ContainsAggregate(ColumnRef(a)) && !ContainsAggregate(ColumnRef(b)) && !ContainsAggregate(on);
    EqualityHolds(on, r.row, ps);
    assert SqlExpr.Evaluate(ColumnRef(a), r.row, ps) == SqlExpr.Evaluate(ColumnRef(b), r.row, ps);
  }

  /** The table of an inner side is built exactly when its keys fit. */
  lemma {:induction false} BucketsBuilt(inners: seq<ExecRow>, columns: seq<Column>, column: nat)
    requires Conforming(inners, columns, false) && column < |columns|
    ensures BucketError(inners, column).None? <==> KeysFit(inners, column)
    decreases |inners|
  {
    if inners != [] {
      var rest := inners[1..];
      assert inners[0] in inners && forall r :: r in rest ==> r in inners;
      BucketsBuilt(rest, columns, column);
      assert KeysFit(inners, column) <==> FitsAt(inners[0].row, column) && KeysFit(rest, column) by {
        KeysFitFrom(inners, column);
      }
    }
  }

  lemma KeysFitFrom(rows: seq<ExecRow>, slot: nat)
    requires rows != []
    ensures KeysFit(rows, slot) <==> FitsAt(rows[0].row, slot) && KeysFit(rows[1..], slot)
  {
    assert forall i :: 0 < i < |rows| ==> rows[i] == rows[1..][i - 1];
    if KeysFit(rows, slot) {
      forall i | 0 <= i < |rows[1..]| ensures FitsAt(rows[1..][i].row, slot) {
        assert rows[1..][i] == rows[i + 1];
      }
    }
  }

  /** One outer row whose key fits, hashed or not. */
  lemma OuterSame(outer: ExecRow, inners: seq<ExecRow>, left: seq<Column>, right: seq<Column>, a: BoundColumn,
                  b: BoundColumn, on: Expr, ps: seq<Value>, output: seq<ExecRow>)
    requires RowOk(left, outer.row) && FitsAt(outer.row, a.slot) && Conforming(inners, right, false)
    requires Equates(on, a, b) && KeysInPlace(a, b, |left|) && b.column < |right|
    requires JoinInner(outer, inners, on, ps, output).Ok?
    ensures var v := outer.row[a.slot];
            JoinInner(outer, inners, on, ps, output)
            == if v.IsNull() then Ok(output)
              else JoinInner(outer, Bucket(inners, b.column, EncodeValue(v)), on, ps, output)
  {
    hide JoinInner, PredicateExec;
    var v := outer.row[a.slot];
    forall r | r in inners && PredicateExec(on, Combine(outer, r), ps) == Ok(true)
      ensures !v.IsNull() && InnerKey(r, b.column) == Ok(Some(EncodeValue(v)))
    {
      var joined := Combine(outer, r);
      ColumnsEqual(on, a, b, joined, ps);
      assert joined.row[a.slot] == v && joined.row[b.slot] == r.row[b.column];
    }
    if v.IsNull() {
      JoinNothing(outer, inners, on, ps, output);
    } else {
      JoinFewer(outer, inners, b.column, EncodeValue(v), on, ps, output);
    }
  }

  lemma OuterKey(outer: ExecRow, left: seq<Column>, a: BoundColumn, ps: seq<Value>)
    requires RowOk(left, outer.row) && a.slot < |left| && a.typeTag == left[a.slot].typeTag
    ensures |outer.row| == |left| && EvaluateExec(ColumnRef(a), outer, ps) == Ok(outer.row[a.slot])
  {
  }

  lemma {:induction false} HashedSame(outers: seq<ExecRow>, inners: seq<ExecRow>, left: seq<Column>, right: seq<Column>,
                                      a: BoundColumn, b: BoundColumn, on: Expr, ps: seq<Value>, output: seq<ExecRow>)
    requires Conforming(outers, left, false) && Conforming(inners, right, false)
    requires Equates(on, a, b) && KeysInPlace(a, b, |left|) && b.column < |right| && a.typeTag == left[a.slot].typeTag
    requires JoinNested(outers, inners, on, ps, output).Ok?
    ensures var r := JoinHashed(outers, inners, ColumnRef(a), b.column, on, ps, output);
            if KeysFit(outers, a.slot) then r == JoinNested(outers, inners, on, ps, output) else r.Err?
    decreases |outers|
  {
    hide JoinInner, EvaluateExec, RowOk, KeysFit;
    if outers != [] {
      assert outers[0] in outers && forall r :: r in outers[1..] ==> r in outers;
      OuterKey(outers[0], left, a, ps);
      KeysFitFrom(outers, a.slot);
      if FitsAt(outers[0].row, a.slot) {
        OuterSame(outers[0], inners, left, right, a, b, on, ps, output);
        var longer := JoinInner(outers[0], inners, on, ps, output).value;
        HashedSame(outers[1..], inners, left, right, a, b, on, ps, longer);
      }
    } else {
      NoKeys(a.slot);
    }
  }

  lemma NoKeys(slot: nat)
    ensures KeysFit([], slot)
  {
  }

  /** A hash join whose keys are in place returns what nested loops return exactly when
      every key of either side can be encoded, and an error otherwise. */
  lemma HashJoinSame(outers: seq<ExecRow>, inners: seq<ExecRow>, left: seq<Column>, right: seq<Column>,
                     a: BoundColumn, b: BoundColumn, on: Expr, ps: seq<Value>)
    requires Conforming(outers, left, false) && Conforming(inners, right, false)
    requires Equates(on, a, b) && KeysInPlace(a, b, |left|) && b.column < |right| && a.typeTag == left[a.slot].typeTag
    requires JoinNested(outers, inners, on, ps, []).Ok?
    ensures var r := HashJoin(outers, inners, ColumnRef(a), b.column, on, ps);
            if KeysFit(outers, a.slot) && KeysFit(inners, b.column) then r == JoinNested(outers, inners, on, ps, [])
            else r.Err?
  {
    hide KeysFit;
    BucketsBuilt(inners, right, b.column);
    HashedSame(outers, inners, left, right, a, b, on, ps, []);
  }

  // ------------------------------------------------------------ rows of a FROM clause

  lemma CombinedOk(a: ExecRow, b: ExecRow, left: seq<Column>, right: seq<Column>, sized: bool)
    requires RowFits(left, a.row, sized) && RowFits(right, b.row, sized)
    ensures RowFits(left + right, Combine(a, b).row, sized)
  {
  }

  lemma {:induction false} InnerConforms(outer: ExecRow, inners: seq<ExecRow>, left: seq<Column>, right: seq<Column>,
                                         on: Expr, ps: seq<Value>, output: seq<ExecRow>, sized: bool)
    requires RowFits(left, outer.row, sized) && Conforming(inners, right, sized)
             && Conforming(output, left + right, sized)
    requires JoinInner(outer, inners, on, ps, output).Ok?
    ensures Conforming(JoinInner(outer, inners, on, ps, output).value, left + right, sized)
    decreases |inners|
  {
    hide RowFits, PredicateExec;
    if inners != [] {
      assert inners[0] in inners && forall r :: r in inners[1..] ==> r in inners;
      CombinedOk(outer, inners[0], left, right, sized);
      var joined := Combine(outer, inners[0]);
      var longer := if PredicateExec(on, joined, ps).value then output + [joined] else output;
      InnerConforms(outer, inners[1..], left, right, on, ps, longer, sized);
    }
  }

  lemma {:induction false} NestedConforms(outers: seq<ExecRow>, inners: seq<ExecRow>, left: seq<Column>,
                                          right: seq<Column>,
                                          on: Expr, ps: seq<Value>, output: seq<ExecRow>, sized: bool)
    requires Conforming(outers, left, sized) && Conforming(inners, right, sized)
             && Conforming(output, left + right, sized)
    requires JoinNested(outers, inners, on, ps, output).Ok?
    ensures Conforming(JoinNested(outers, inners, on, ps, output).value, left + right, sized)
    decreases |outers|
  {
    hide RowFits, JoinInner;
    if outers != [] {
      assert outers[0] in outers && forall r :: r in outers[1..] ==> r in outers;
      InnerConforms(outers[0], inners, left, right, on, ps, output, sized);
      var longer := JoinInner(outers[0], inners, on, ps, output).value;
      NestedConforms(outers[1..], inners, left, right, on, ps, longer, sized);
    }
  }

  /** Every table's visible rows fit its schema. */
  ghost predicate TablesConform(e: Engine, t: Transaction, sized: bool) {
    forall id {:trigger id in e.catalog.tables} :: id in e.catalog.tables ==>
      Conforming(Plain(ScanTable(e, t, id)), e.catalog.tables[id].columns, sized)
  }

  lemma {:induction false} FromConforms(e: Engine, t: Transaction, p: LogicalPlan, ps: seq<Value>, sized: bool)
    requires IsFrom(p) && WellBound(p, e.catalog) && TablesConform(e, t, sized) && Execute(e, t, Naive(p), ps).Ok?
    ensures Conforming(Execute(e, t, Naive(p), ps).value, Columns(p), sized)
    decreases p
  {
    hide Conforming, JoinNested, Bound, ScanTable;
    if p.Join? {
      FromConforms(e, t, p.left, ps, sized);
      ScanConforms(e, t, p.right.table, ps, sized);
      var outers, inners := Execute(e, t, Naive(p.left), ps).value, Execute(e, t, Naive(p.right), ps).value;
      assert Conforming([], Columns(p), sized) by { NothingConforms(Columns(p), sized); }
      NestedConforms(outers, inners, Columns(p.left), Columns(p.right), p.on, ps, [], sized);
    } else {
      ScanConforms(e, t, p.table, ps, sized);
    }
  }

  lemma NothingConforms(columns: seq<Column>, sized: bool)
    ensures Conforming([], columns, sized)
  {
  }

  lemma ScanConforms(e: Engine, t: Transaction, table: BoundTable, ps: seq<Value>, sized: bool)
    requires WellBound(Scan(table), e.catalog) && TablesConform(e, t, sized) && Execute(e, t, SeqScan(table), ps).Ok?
    ensures Conforming(Execute(e, t, SeqScan(table), ps).value, table.meta.columns, sized)
  {
  }

  // -------------------------------------------------------------------- bound slots

  /** A bound column's slot holds its type. */
  lemma {:induction false} SlotTyped(p: LogicalPlan, c: BoundColumn, i: nat)
    requires IsFrom(p) && i < |Tables(p)| && BoundTo(c, Tables(p)[i])
    ensures c.slot < |Columns(p)| && Columns(p)[c.slot].typeTag == c.typeTag
    decreases p
  {
    if p.Join? && i < |Tables(p.left)| {
      SlotTyped(p.left, c, i);
    }
  }

  /** The two columns a join hashes on, told apart by table id, are where it looks. */
  predicate JoinInPlace(left: LogicalPlan, right: LogicalPlan, on: Expr) {
    right.Scan? ==>
      var keys := HashJoinKeys(on, {right.table.meta.id});
      keys.Some? ==> KeysInPlace(keys.value.0, keys.value.1, |Columns(left)|)
  }

  predicate JoinsInPlace(p: LogicalPlan) {
    match p
    case Scan(_) => true
    case Filter(input, _) => JoinsInPlace(input)
    case Join(left, right, on) => JoinsInPlace(left) && JoinInPlace(left, right, on)
    case Aggregated(input, _, _) => JoinsInPlace(input)
    case Sort(input, _) => JoinsInPlace(input)
    case Limit(input, _) => JoinsInPlace(input)
    case Project(input, _) => JoinsInPlace(input)
  }

  predicate DistinctTables(tables: seq<BoundTable>) {
    forall i, j :: 0 <= i < j < |tables| ==> tables[i].meta.id != tables[j].meta.id
  }

  /** No table occurs twice in FROM. */
  predicate DistinctFrom(p: LogicalPlan) {
    match p
    case Scan(_) => true
    case Join(_, _, _) => DistinctTables(Tables(p))
    case Filter(input, _) => DistinctFrom(input)
    case Aggregated(input, _, _) => DistinctFrom(input)
    case Sort(input, _) => DistinctFrom(input)
    case Limit(input, _) => DistinctFrom(input)
    case Project(input, _) => DistinctFrom(input)
  }

  lemma DistinctKeys(p: LogicalPlan, a: BoundColumn, b: BoundColumn)
    requires p.Join? && IsFrom(p) && DistinctTables(Tables(p)) && ColumnBound(a, Tables(p)) && ColumnBound(b, Tables(p))
    requires b.table == p.right.table.meta.id && a.table != p.right.table.meta.id
    ensures KeysInPlace(a, b, |Columns(p.left)|)
  {
    var tables, n := Tables(p), |Tables(p.left)|;
    assert Tables(p.right) == [p.right.table] && tables == Tables(p.left) + [p.right.table];
    var i :| 0 <= i < |tables| && BoundTo(a, tables[i]);
    assert i < n && tables[i] == Tables(p.left)[i];
    SlotTyped(p.left, a, i);
    assert tables[n] == p.right.table && forall k :: 0 <= k < n ==> tables[k].meta.id != tables[n].meta.id;
    var j :| 0 <= j < |tables| && BoundTo(b, tables[j]);
  }

  /** Distinct tables put every hash key in place. */
  lemma {:induction false} DistinctFromBinds(p: LogicalPlan, c: Catalog)
    requires WellBound(p, c) && DistinctFrom(p)
    ensures JoinsInPlace(p)
    decreases p
  {
    match p
    case Join(left, right, on) =>
      assert forall i :: 0 <= i < |Tables(left)| ==> Tables(p)[i] == Tables(left)[i];
      assert IsFrom(left) && DistinctTables(Tables(left)) && DistinctFrom(left);
      DistinctFromBinds(left, c);
      var keys := HashJoinKeys(on, {right.table.meta.id});
      if keys.Some? {
        assert Bound(on.left, Tables(p)) && Bound(on.right, Tables(p));
        assert ColumnBound(on.left.column, Tables(p)) && ColumnBound(on.right.column, Tables(p));
        DistinctKeys(p, keys.value.0, keys.value.1);
      }
    case Scan(_) =>
    case _ => DistinctFromBinds(p.input, c);
  }
}
