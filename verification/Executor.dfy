/** Executing physical plans: scans, filters, joins, aggregation, sorting, limits. */
module Executor {
  import opened Wrappers
  import opened Ordering
  import opened OrderedKeys
  import opened RowCodec
  import opened Mvcc
  import opened SqlExpr
  import opened QueryPlan

  const MAX_INTERMEDIATE_ROWS: nat := 1_000_000

  /** A row and the aggregates computed for its group. */
  datatype ExecRow = ExecRow(row: Row, aggregates: seq<(Expr, Value)>)

  type ExecResult = Result<seq<ExecRow>, SqlError>

  function Bounded(rows: seq<ExecRow>): ExecResult {
    if |rows| > MAX_INTERMEDIATE_ROWS then Err(TooLarge) else Ok(rows)
  }

  function Plain(rows: seq<Row>): seq<ExecRow> {
    if rows == [] then [] else [ExecRow(rows[0], [])] + Plain(rows[1..])
  }

  // -------------------------------------------------------------------- evaluation

  function Computed(aggregates: seq<(Expr, Value)>, x: Expr): Evaluated {
    if aggregates == [] then Err(Invariant)
    else if SameExpression(aggregates[0].0, x) then Ok(aggregates[0].1)
    else Computed(aggregates[1..], x)
  }

  function EvaluateExec(x: Expr, r: ExecRow, ps: seq<Value>): Evaluated
    decreases x
  {
    if !ContainsAggregate(x) then SqlExpr.Evaluate(x, r.row, ps)
    else
      match x
      case Aggregate(_, _) => Computed(r.aggregates, x)
      case Unary(op, a) =>
        (match EvaluateExec(a, r, ps)
         case Err(e) => Err(e)
         case Ok(v) => ApplyUnary(op, v))
      case Binary(a, op, b) =>
        (match EvaluateExec(a, r, ps)
         case Err(e) => Err(e)
         case Ok(v) =>
           match Settles(op, v)
           case Err(e) => Err(e)
           case Ok(Some(settled)) => Ok(settled)
           case Ok(None) =>
             match EvaluateExec(b, r, ps)
             case Err(e) => Err(e)
             case Ok(w) => ApplyBinary(v, op, w))
      case NullTest(a, negated) =>
        (match EvaluateExec(a, r, ps)
         case Err(e) => Err(e)
         case Ok(v) => Ok(Bool(v.IsNull() != negated)))
      case _ => Err(Invariant)
  }

  function PredicateExec(x: Expr, r: ExecRow, ps: seq<Value>): Result<bool, SqlError> {
    Holds(EvaluateExec(x, r, ps))
  }

  function EvaluateAll(xs: seq<Expr>, r: ExecRow, ps: seq<Value>): Result<seq<Value>, SqlError>
    decreases |xs|
  {
    if xs == [] then Ok([])
    else
      match EvaluateExec(xs[0], r, ps)
      case Err(e) => Err(e)
      case Ok(v) =>
        match EvaluateAll(xs[1..], r, ps)
        case Err(e) => Err(e)
        case Ok(vs) => Ok([v] + vs)
  }

  // ---------------------------------------------------------------- simple operators

  function FilterRows(rows: seq<ExecRow>, x: Expr, ps: seq<Value>): ExecResult
    decreases |rows|
  {
    if rows == [] then Ok([])
    else
      match PredicateExec(x, rows[0], ps)
      case Err(e) => Err(e)
      case Ok(keep) =>
        match FilterRows(rows[1..], x, ps)
        case Err(e) => Err(e)
        case Ok(rest) => Ok((if keep then [rows[0]] else []) + rest)
  }

  function ProjectRows(rows: seq<ExecRow>, xs: seq<Expr>, ps: seq<Value>): ExecResult
    decreases |rows|
  {
    if rows == [] then Ok([])
    else
      match EvaluateAll(xs, rows[0], ps)
      case Err(e) => Err(e)
      case Ok(vs) =>
        match ProjectRows(rows[1..], xs, ps)
        case Err(e) => Err(e)
        case Ok(rest) => Ok([ExecRow(vs, [])] + rest)
  }

  function LimitRows(rows: seq<ExecRow>, x: Expr, ps: seq<Value>): ExecResult {
    match EvaluateExec(x, ExecRow([], []), ps)
    case Err(e) => Err(e)
    case Ok(v) =>
      if v.Int64? && v.number >= 0 then Ok(if v.number as nat < |rows| then rows[..v.number as nat] else rows)
      else Err(BadConstraint)
  }

  // ------------------------------------------------------------------------ sorting

  /** Nulls last; values of different types are not told apart. */
  function CompareSortValues(a: Value, b: Value): Order {
    if a.IsNull() && b.IsNull() then Equal
    else if a.IsNull() then Greater
    else if b.IsNull() then Lesser
    else
      match CheckedCmp(a, b)
      case Ok(Some(order)) => order
      case _ => Equal
  }

  function Flip(o: Order): Order {
    match o
    case Lesser => Greater
    case Equal => Equal
    case Greater => Lesser
  }

  type Keyed = (ExecRow, seq<Value>)

  function CompareKeys(a: seq<Value>, b: seq<Value>, orderBy: seq<Sorting>): Order
    decreases |orderBy|
  {
    if a == [] || b == [] || orderBy == [] then Equal
    else
      var o := CompareSortValues(a[0], b[0]);
      var first := if orderBy[0].descending then Flip(o) else o;
      if first != Equal then first else CompareKeys(a[1..], b[1..], orderBy[1..])
  }

  /** Before the first entry that is not smaller, so equal rows keep their order. */
  function InsertKeyed(x: Keyed, sorted: seq<Keyed>, orderBy: seq<Sorting>): seq<Keyed> {
    if sorted == [] || CompareKeys(sorted[0].1, x.1, orderBy) != Lesser then [x] + sorted
    else [sorted[0]] + InsertKeyed(x, sorted[1..], orderBy)
  }

  function SortKeyed(rows: seq<Keyed>, orderBy: seq<Sorting>): seq<Keyed> {
    if rows == [] then [] else InsertKeyed(rows[0], SortKeyed(rows[1..], orderBy), orderBy)
  }

  function KeyRows(rows: seq<ExecRow>, orderBy: seq<Sorting>, ps: seq<Value>): Result<seq<Keyed>, SqlError>
    decreases |rows|
  {
    if rows == [] then Ok([])
    else
      match EvaluateAll(SortExprs(orderBy), rows[0], ps)
      case Err(e) => Err(e)
      case Ok(vs) =>
        match KeyRows(rows[1..], orderBy, ps)
        case Err(e) => Err(e)
        case Ok(rest) => Ok([(rows[0], vs)] + rest)
  }

  function SortExprs(orderBy: seq<Sorting>): seq<Expr> {
    if orderBy == [] then [] else [orderBy[0].key] + SortExprs(orderBy[1..])
  }

  function Unkeyed(rows: seq<Keyed>): seq<ExecRow> {
    if rows == [] then [] else [rows[0].0] + Unkeyed(rows[1..])
  }

  function SortRows(rows: seq<ExecRow>, orderBy: seq<Sorting>, ps: seq<Value>): ExecResult {
    match KeyRows(rows, orderBy, ps)
    case Err(e) => Err(e)
    case Ok(keyed) => Ok(Unkeyed(SortKeyed(keyed, orderBy)))
  }

  // -------------------------------------------------------------------- aggregation

  function CountValues(x: Expr, rows: seq<ExecRow>, ps: seq<Value>): Result<nat, SqlError>
    decreases |rows|
  {
    if rows == [] then Ok(0)
    else
      match EvaluateExec(x, rows[0], ps)
      case Err(e) => Err(e)
      case Ok(v) =>
        match CountValues(x, rows[1..], ps)
        case Err(e) => Err(e)
        case Ok(n) => Ok(n + if v.IsNull() then 0 else 1)
  }

  function CheckedAdd(a: i64, b: i64): Option<i64> {
    var s := a as int + b as int;
    if LEAST as int <= s < -(LEAST as int) then Some(s as i64) else None
  }

  function SumFrom(x: Expr, rows: seq<ExecRow>, ps: seq<Value>, sum: Option<i64>): Result<Option<i64>, SqlError>
    decreases |rows|
  {
    if rows == [] then Ok(sum)
    else
      match EvaluateExec(x, rows[0], ps)
      case Err(e) => Err(e)
      case Ok(Null) => SumFrom(x, rows[1..], ps, sum)
      case Ok(Int64(n)) =>
        (match CheckedAdd(if sum.Some? then sum.value else 0, n)
         case None => Err(BadConstraint)
         case Some(s) => SumFrom(x, rows[1..], ps, Some(s)))
      case Ok(_) => Err(WrongType)
  }

  predicate Replaces(v: Value, current: Value, wanted: Order) {
    CheckedCmp(v, current) == Ok(Some(wanted))
  }

  /** The extreme value so far; `wanted` is `Lesser` for a minimum and `Greater` for a maximum. */
  function ExtremeFrom(x: Expr, rows: seq<ExecRow>, ps: seq<Value>, wanted: Order, best: Value): Evaluated
    decreases |rows|
  {
    if rows == [] then Ok(best)
    else
      match EvaluateExec(x, rows[0], ps)
      case Err(e) => Err(e)
      case Ok(v) =>
        ExtremeFrom(x, rows[1..], ps, wanted, if !v.IsNull()
                    && (best.IsNull() || Replaces(v, best, wanted)) then v else best)
  }

  function AsCount(n: nat): Evaluated {
    if n < -(LEAST as int) then Ok(Int64(n as i64)) else Err(TooLarge)
  }

  function ComputeAggregate(x: Expr, rows: seq<ExecRow>, ps: seq<Value>): Evaluated {
    if !x.Aggregate? then Err(Invariant)
    else if x.aggregate.Count? then
      if x.argument.None? then AsCount(|rows|)
      else
        match CountValues(x.argument.value, rows, ps)
        case Err(e) => Err(e)
        case Ok(n) => AsCount(n)
    else if x.argument.None? then Err(Invariant)
    else if x.aggregate.Sum? then
      match SumFrom(x.argument.value, rows, ps, None)
      case Err(e) => Err(e)
      case Ok(sum) => Ok(if sum.Some? then Int64(sum.value) else Null)
    else ExtremeFrom(x.argument.value, rows, ps, if x.aggregate.Min? then Lesser else Greater, Null)
  }

  function ComputeAll(xs: seq<Expr>, rows: seq<ExecRow>, ps: seq<Value>): Result<seq<(Expr, Value)>, SqlError>
    decreases |xs|
  {
    if xs == [] then Ok([])
    else
      match ComputeAggregate(xs[0], rows, ps)
      case Err(e) => Err(e)
      case Ok(v) =>
        match ComputeAll(xs[1..], rows, ps)
        case Err(e) => Err(e)
        case Ok(rest) => Ok([(xs[0], v)] + rest)
  }

  /** The bytes a row is grouped under. */
  function GroupKey(groupBy: seq<Expr>, r: ExecRow, ps: seq<Value>): Result<Bytes, SqlError> {
    match EvaluateAll(groupBy, r, ps)
    case Err(e) => Err(e)
    case Ok(vs) =>
      match EncodeRow(vs)
      case None => Err(TooLarge)
      case Some(key) => Ok(key)
  }

  function GroupKeys(groupBy: seq<Expr>, rows: seq<ExecRow>, ps: seq<Value>): Result<seq<Bytes>, SqlError>
    decreases |rows|
  {
    if rows == [] then Ok([])
    else
      match GroupKey(groupBy, rows[0], ps)
      case Err(e) => Err(e)
      case Ok(key) =>
        match GroupKeys(groupBy, rows[1..], ps)
        case Err(e) => Err(e)
        case Ok(keys) => Ok([key] + keys)
  }

  function RowsKeyed(rows: seq<ExecRow>, keys: seq<Bytes>, key: Bytes): seq<ExecRow>
    requires |rows| == |keys|
  {
    if rows == [] then [] else (if keys[0] == key then [rows[0]] else []) + RowsKeyed(rows[1..], keys[1..], key)
  }

  function Members(keys: seq<Bytes>): set<Bytes> {
    set k | k in keys
  }

  /** Groups in the order of their encoded keys; no rows and no grouping still give one. */
  function GroupNames(groupBy: seq<Expr>, keys: seq<Bytes>): seq<Bytes> {
    if keys == [] && groupBy == [] then [[]] else Ordering.Sorted(Members(keys))
  }

  function AggregateGroup(rows: seq<ExecRow>, aggregates: seq<Expr>, ps: seq<Value>): Result<ExecRow, SqlError> {
    match ComputeAll(aggregates, rows, ps)
    case Err(e) => Err(e)
    case Ok(computed) => Ok(ExecRow(if rows == [] then [] else rows[0].row, computed))
  }

  function AggregateGroups(names: seq<Bytes>, rows: seq<ExecRow>, keys: seq<Bytes>, aggregates: seq<Expr>,
                           ps: seq<Value>): ExecResult
    requires |rows| == |keys|
    decreases |names|
  {
    if names == [] then Ok([])
    else
      match AggregateGroup(RowsKeyed(rows, keys, names[0]), aggregates, ps)
      case Err(e) => Err(e)
      case Ok(r) =>
        match AggregateGroups(names[1..], rows, keys, aggregates, ps)
        case Err(e) => Err(e)
        case Ok(rest) => Ok([r] + rest)
  }

  lemma {:induction false} OneKeyEach(groupBy: seq<Expr>, rows: seq<ExecRow>, ps: seq<Value>)
    ensures GroupKeys(groupBy, rows, ps).Ok? ==> |GroupKeys(groupBy, rows, ps).value| == |rows|
    decreases |rows|
  {
    if rows != [] {
      OneKeyEach(groupBy, rows[1..], ps);
    }
  }

  function AggregateRows(rows: seq<ExecRow>, groupBy: seq<Expr>, aggregates: seq<Expr>, ps: seq<Value>): ExecResult {
    OneKeyEach(groupBy, rows, ps);
    match GroupKeys(groupBy, rows, ps)
    case Err(e) => Err(e)
    case Ok(keys) => AggregateGroups(GroupNames(groupBy, keys), rows, keys, aggregates, ps)
  }

  // -------------------------------------------------------------------------- joins

  function Combine(a: ExecRow, b: ExecRow): ExecRow {
    ExecRow(a.row + b.row, a.aggregates + b.aggregates)
  }

  /** One outer row against the inner rows, appending to the output. */
  function JoinInner(outer: ExecRow, inners: seq<ExecRow>, on: Expr, ps: seq<Value>, output: seq<ExecRow>): ExecResult
    decreases |inners|
  {
    if inners == [] then Ok(output)
    else
      var joined := Combine(outer, inners[0]);
      match PredicateExec(on, joined, ps)
      case Err(e) => Err(e)
      case Ok(false) => JoinInner(outer, inners[1..], on, ps, output)
      case Ok(true) =>
        if |output| + 1 > MAX_INTERMEDIATE_ROWS then Err(TooLarge)
        else JoinInner(outer, inners[1..], on, ps, output + [joined])
  }

  function JoinNested(outers: seq<ExecRow>, inners: seq<ExecRow>, on: Expr, ps: seq<Value>,
                      output: seq<ExecRow>): ExecResult
    decreases |outers|
  {
    if outers == [] then Ok(output)
    else
      match JoinInner(outers[0], inners, on, ps, output)
      case Err(e) => Err(e)
      case Ok(longer) => JoinNested(outers[1..], inners, on, ps, longer)
  }

  /** The encoded join key of an inner row; null keys join with nothing. */
  function InnerKey(r: ExecRow, column: nat): Result<Option<Bytes>, SqlError> {
    if column >= |r.row| then Err(Invariant)
    else if r.row[column].IsNull() then Ok(None)
    else if !ValueFits(r.row[column]) then Err(TooLarge)
    else Ok(Some(EncodeValue(r.row[column])))
  }

  function BucketError(inners: seq<ExecRow>, column: nat): Option<SqlError> {
    if inners == [] then None
    else
      match InnerKey(inners[0], column)
      case Err(e) => Some(e)
      case Ok(_) => BucketError(inners[1..], column)
  }

  function Bucket(inners: seq<ExecRow>, column: nat, key: Bytes): seq<ExecRow> {
    if inners == [] then []
    else (if InnerKey(inners[0], column) == Ok(Some(key)) then [inners[0]] else []) + Bucket(inners[1..], column, key)
  }

  function JoinHashed(outers: seq<ExecRow>, inners: seq<ExecRow>, outerKey: Expr, column: nat, on: Expr, ps: seq<Value>,
                      output: seq<ExecRow>): ExecResult
    decreases |outers|
  {
    if outers == [] then Ok(output)
    else
      match EvaluateExec(outerKey, outers[0], ps)
      case Err(e) => Err(e)
      case Ok(v) =>
        if v.IsNull() then JoinHashed(outers[1..], inners, outerKey, column, on, ps, output)
        else if !ValueFits(v) then Err(TooLarge)
        else
          match JoinInner(outers[0], Bucket(inners, column, EncodeValue(v)), on, ps, output)
          case Err(e) => Err(e)
          case Ok(longer) => JoinHashed(outers[1..], inners, outerKey, column, on, ps, longer)
  }

  function HashJoin(outers: seq<ExecRow>, inners: seq<ExecRow>, outerKey: Expr, column: nat, on: Expr,
                    ps: seq<Value>): ExecResult {
    match BucketError(inners, column)
    case Some(e) => Err(e)
    case None => JoinHashed(outers, inners, outerKey, column, on, ps, [])
  }

  function PlanTables(p: PhysicalPlan): set<TableId> {
    match p
    case SeqScan(table) => {table.meta.id}
    case IndexScan(table, _, _) => {table.meta.id}
    case Joined(a, b, _, _) => PlanTables(a) + PlanTables(b)
    case Filtered(a, _) => PlanTables(a)
    case HashAggregate(a, _, _) => PlanTables(a)
    case Sorted(a, _) => PlanTables(a)
    case Limited(a, _) => PlanTables(a)
    case Projected(a, _) => PlanTables(a)
  }

  /** The outer and the inner column of an equi-join, told apart by table id. */
  function HashJoinKeys(on: Expr, tables: set<TableId>): Option<(BoundColumn, BoundColumn)> {
    if !EquatesColumns(on) then None
    else
      var a, b := on.left.column, on.right.column;
      if b.table in tables && a.table !in tables then Some((a, b))
      else if a.table in tables && b.table !in tables then Some((b, a))
      else None
  }

  function JoinRows(outers: seq<ExecRow>, inners: seq<ExecRow>, on: Expr, algorithm: JoinAlgorithm,
                    tables: set<TableId>, ps: seq<Value>): ExecResult {
    var keys := HashJoinKeys(on, tables);
    if keys.Some? && !algorithm.NestedLoop?
      then HashJoin(outers, inners, ColumnRef(keys.value.0), keys.value.1.column, on, ps)
    else JoinNested(outers, inners, on, ps, [])
  }

  // -------------------------------------------------------------------------- plans

  predicate SnapshotOk(e: Engine, t: Transaction) {
    e.retainedFloor <= t.readTs <= e.lastApplied
  }

  function ScanRows(e: Engine, t: Transaction, table: TableId): ExecResult {
    if !SnapshotOk(e, t) || table !in e.catalog.tables then Err(Storage) else Ok(Plain(ScanTable(e, t, table)))
  }

  function ProbeRows(e: Engine, t: Transaction, index: IndexId, v: Value): ExecResult {
    if !SnapshotOk(e, t) || index !in e.catalog.indexes then Err(Storage)
    else if !ValueFits(v) then Err(TooLarge)
    else Ok(Plain(ScanSecondary(e, t, e.catalog.indexes[index], v)))
  }

  /** Equality probes the index; any other comparison scans. */
  function IndexRows(e: Engine, t: Transaction, table: TableId, index: IndexId, c: Constraint,
                     ps: seq<Value>): ExecResult {
    match EvaluateExec(c.bound, ExecRow([], []), ps)
    case Err(err) => Err(err)
    case Ok(v) => if c.op.Eq? && !v.IsNull() then ProbeRows(e, t, index, v) else ScanRows(e, t, table)
  }

  function Within(r: ExecResult): ExecResult {
    if r.Ok? then Bounded(r.value) else r
  }

  function Execute(e: Engine, t: Transaction, p: PhysicalPlan, ps: seq<Value>): ExecResult {
    Within(match p
           case SeqScan(table) => ScanRows(e, t, table.meta.id)
           case IndexScan(table, index, c) => IndexRows(e, t, table.meta.id, index.id, c, ps)
           case Filtered(a, x) =>
             (match Execute(e, t, a, ps)
              case Err(err) => Err(err)
              case Ok(rows) => FilterRows(rows, x, ps))
           case Joined(a, b, on, algorithm) =>
             (match Execute(e, t, a, ps)
              case Err(err) => Err(err)
              case Ok(outers) =>
                match Execute(e, t, b, ps)
                case Err(err) => Err(err)
                case Ok(inners) => JoinRows(outers, inners, on, algorithm, PlanTables(b), ps))
           case HashAggregate(a, groupBy, aggregates) =>
             (match Execute(e, t, a, ps)
              case Err(err) => Err(err)
              case Ok(rows) => AggregateRows(rows, groupBy, aggregates, ps))
           case Sorted(a, orderBy) =>
             (match Execute(e, t, a, ps)
              case Err(err) => Err(err)
              case Ok(rows) => SortRows(rows, orderBy, ps))
           case Limited(a, x) =>
             (match Execute(e, t, a, ps)
              case Err(err) => Err(err)
              case Ok(rows) => LimitRows(rows, x, ps))
           case Projected(a, xs) =>
             (match Execute(e, t, a, ps)
              case Err(err) => Err(err)
              case Ok(rows) => ProjectRows(rows, xs, ps)))
  }
}
