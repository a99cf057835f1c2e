/** Logical and physical plans, and the planner that turns one into the other. */
module QueryPlan {
  import opened Wrappers
  import opened OrderedKeys
  import opened Mvcc
  import opened SqlExpr

  /** A table in scope and the first slot it fills in the joined row. */
  datatype BoundTable = BoundTable(meta: TableMeta, offset: nat)

  datatype Sorting = Sorting(key: Expr, descending: bool)

  datatype LogicalPlan =
    | Scan(table: BoundTable)
    | Filter(input: LogicalPlan, predicate_: Expr)
    | Join(left: LogicalPlan, right: LogicalPlan, on: Expr)
    | Aggregated(input: LogicalPlan, groupBy: seq<Expr>, aggregates: seq<Expr>)
    | Sort(input: LogicalPlan, orderBy: seq<Sorting>)
    | Limit(input: LogicalPlan, limit: Expr)
    | Project(input: LogicalPlan, expressions: seq<Expr>)

  datatype JoinAlgorithm = NestedLoop | Hash | IndexNestedLoop(index: IndexId, column: nat)

  datatype Constraint = Constraint(column: nat, op: BinaryOp, bound: Expr)

  datatype PhysicalPlan =
    | SeqScan(table: BoundTable)
    | IndexScan(table: BoundTable, index: IndexMeta, constraint: Constraint)
    | Filtered(source: PhysicalPlan, predicate_: Expr)
    | Joined(outer: PhysicalPlan, inner: PhysicalPlan, on: Expr, algorithm: JoinAlgorithm)
    | HashAggregate(source: PhysicalPlan, groupBy: seq<Expr>, aggregates: seq<Expr>)
    | Sorted(source: PhysicalPlan, orderBy: seq<Sorting>)
    | Limited(source: PhysicalPlan, limit: Expr)
    | Projected(source: PhysicalPlan, expressions: seq<Expr>)

  function Reversed(op: BinaryOp): BinaryOp {
    match op
    case Lt => Gt
    case LtEq => GtEq
    case Gt => Lt
    case GtEq => LtEq
    case _ => op
  }

  predicate IsProbe(x: Expr) {
    (x.Literal? && !x.value.IsNull()) || x.Parameter?
  }

  /** A comparison of a column with a literal or a parameter, read with the column first. */
  function Sargable(x: Expr): Option<(BoundColumn, BinaryOp, Expr)> {
    if !x.Binary? || !x.op.IsComparison() then None
    else if x.left.ColumnRef? && IsProbe(x.right) then Some((x.left.column, x.op, x.right))
    else if IsProbe(x.left) && x.right.ColumnRef? then Some((x.right.column, Reversed(x.op), x.left))
    else None
  }

  function FindIndex(xs: seq<IndexMeta>, column: nat): Option<IndexMeta> {
    if xs == [] then None else if xs[0].column == column then Some(xs[0]) else FindIndex(xs[1..], column)
  }

  /** The first conjunct, left to right, that an index of the table can narrow. */
  function ChooseIndex(table: BoundTable, x: Expr, c: Catalog): Option<(IndexMeta, Constraint)>
    decreases x
  {
    if x.Binary? && x.op.And? then
      var first := ChooseIndex(table, x.left, c);
      if first.Some? then first else ChooseIndex(table, x.right, c)
    else
      match Sargable(x)
      case None => None
      case Some((column, op, bound)) =>
        if column.table != table.meta.id then None
        else
          match FindIndex(IndexesOf(c, table.meta.id), column.column)
          case None => None
          case Some(index) => Some((index, Constraint(column.column, op, bound)))
  }

  predicate EquatesColumns(on: Expr) {
    on.Binary? && on.op.Eq? && on.left.ColumnRef? && on.right.ColumnRef?
  }

  function ChooseJoin(right: LogicalPlan, on: Expr, c: Catalog): JoinAlgorithm {
    if !EquatesColumns(on) then NestedLoop
    else if !right.Scan? then Hash
    else
      var inner := right.table.meta.id;
      if on.right.column.table != inner && on.left.column.table != inner then Hash
      else
        var column := (if on.right.column.table == inner then on.right.column else on.left.column).column;
        match FindIndex(IndexesOf(c, inner), column)
        case None => Hash
        case Some(index) => IndexNestedLoop(index.id, column)
  }

  function Optimize(p: LogicalPlan, c: Catalog): PhysicalPlan {
    match p
    case Scan(table) => SeqScan(table)
    case Filter(input, x) =>
      var chosen := if input.Scan? then ChooseIndex(input.table, x, c) else None;
      // The whole predicate stays: the index only narrows the candidates.
      if input.Scan? && chosen.Some? then Filtered(IndexScan(input.table, chosen.value.0, chosen.value.1), x)
      else Filtered(Optimize(input, c), x)
    case Join(left, right, on) => Joined(Optimize(left, c), Optimize(right, c), on, ChooseJoin(right, on, c))
    case Aggregated(input, groupBy, aggregates) => HashAggregate(Optimize(input, c), groupBy, aggregates)
    case Sort(input, orderBy) => Sorted(Optimize(input, c), orderBy)
    case Limit(input, limit) => Limited(Optimize(input, c), limit)
    case Project(input, expressions) => Projected(Optimize(input, c), expressions)
  }

  /** The reference: sequential scans and nested loops only. */
  function Naive(p: LogicalPlan): PhysicalPlan {
    match p
    case Scan(table) => SeqScan(table)
    case Filter(input, x) => Filtered(Naive(input), x)
    case Join(left, right, on) => Joined(Naive(left), Naive(right), on, NestedLoop)
    case Aggregated(input, groupBy, aggregates) => HashAggregate(Naive(input), groupBy, aggregates)
    case Sort(input, orderBy) => Sorted(Naive(input), orderBy)
    case Limit(input, limit) => Limited(Naive(input), limit)
    case Project(input, expressions) => Projected(Naive(input), expressions)
  }
}
