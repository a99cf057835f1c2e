/** Bound expressions and their three-valued meaning. */
module SqlExpr {
  import opened Wrappers
  import opened OrderedKeys
  import opened Mvcc

  datatype UnaryOp = Not | Negate

  datatype BinaryOp = Or | And | Eq | NotEq | Lt | LtEq | Gt | GtEq {
    predicate IsComparison() {
      !Or? && !And?
    }
  }

  datatype AggregateFunction = Count | Sum | Min | Max

  /** A column of a table in scope: its place in the table, in the joined row, and its type. */
  datatype BoundColumn = BoundColumn(table: TableId, column: nat, slot: nat, typeTag: nat)

  datatype Expr =
    | Literal(value: Value)
    | Parameter(index: nat, typeTag: Option<nat>)
    | ColumnRef(column: BoundColumn)
    | Unary(unary: UnaryOp, operand: Expr)
    | Binary(left: Expr, op: BinaryOp, right: Expr)
    | NullTest(operand: Expr, negated: bool)
    | Aggregate(aggregate: AggregateFunction, argument: Option<Expr>)

  datatype SqlError = WrongType | BadConstraint | Unsupported | Invariant | TooLarge | Storage

  type Evaluated = Result<Value, SqlError>

  // ------------------------------------------------------------------- truth values

  datatype Truth = False | True | Unknown {
    function Conj(other: Truth): Truth {
      if this.False? || other.False? then False else if this.True? && other.True? then True else Unknown
    }

    function Disj(other: Truth): Truth {
      if this.True? || other.True? then True else if this.False? && other.False? then False else Unknown
    }

    function Neg(): Truth {
      match this
      case False => True
      case True => False
      case Unknown => Unknown
    }

    function IntoValue(): Value {
      match this
      case False => Bool(false)
      case True => Bool(true)
      case Unknown => Null
    }
  }

  function TruthOf(v: Value): Result<Truth, SqlError> {
    match v
    case Bool(flag) => Ok(if flag then True else False)
    case Null => Ok(Unknown)
    case _ => Err(WrongType)
  }

  // --------------------------------------------------------------------- operators

  function Typed(v: Value, expected: Option<nat>): Evaluated {
    if expected.Some? && !v.IsNull() && expected.value != v.TypeTag() then Err(WrongType) else Ok(v)
  }

  function Compare(a: Value, op: BinaryOp, b: Value): Evaluated
    requires op.IsComparison()
  {
    match CheckedCmp(a, b)
    case Err(_) => Err(WrongType)
    case Ok(None) => Ok(Null)
    case Ok(Some(order)) =>
      Ok(Bool(match op
              case Eq => order.Equal?
              case NotEq => !order.Equal?
              case Lt => order.Lesser?
              case LtEq => !order.Greater?
              case Gt => order.Greater?
              case GtEq => !order.Lesser?))
  }

  const LEAST: i64 := -0x8000_0000_0000_0000

  function ApplyUnary(op: UnaryOp, v: Value): Evaluated {
    match op
    case Not =>
      (match TruthOf(v)
       case Err(e) => Err(e)
       case Ok(t) => Ok(t.Neg().IntoValue()))
    case Negate =>
      match v
      case Null => Ok(Null)
      case Int64(n) => if n == LEAST then Err(BadConstraint) else Ok(Int64(-n))
      case _ => Err(WrongType)
  }

  /** The left operand alone, when it settles a conjunction or a disjunction. */
  function Settles(op: BinaryOp, left: Value): Result<Option<Value>, SqlError> {
    if op.IsComparison() then Ok(None)
    else
      match TruthOf(left)
      case Err(e) => Err(e)
      case Ok(t) =>
        if op.And? && t.False? then Ok(Some(Bool(false)))
        else if op.Or? && t.True? then Ok(Some(Bool(true)))
        else Ok(None)
  }

  function ApplyBinary(left: Value, op: BinaryOp, right: Value): Evaluated {
    if op.IsComparison() then Compare(left, op, right)
    else
      match (TruthOf(left), TruthOf(right))
      case (Ok(a), Ok(b)) => Ok((if op.And? then a.Conj(b) else a.Disj(b)).IntoValue())
      case _ => Err(WrongType)
  }

  // -------------------------------------------------------------------- evaluation

  function Evaluate(x: Expr, row: Row, ps: seq<Value>): Evaluated {
    match x
    case Literal(v) => Ok(v)
    case Parameter(i, tag) => if i >= |ps| then Err(BadConstraint) else Typed(ps[i], tag)
    case ColumnRef(c) => if c.slot >= |row| then Err(BadConstraint) else Typed(row[c.slot], Some(c.typeTag))
    case Unary(op, a) =>
      (match Evaluate(a, row, ps)
       case Err(e) => Err(e)
       case Ok(v) => ApplyUnary(op, v))
    case Binary(a, op, b) =>
      (match Evaluate(a, row, ps)
       case Err(e) => Err(e)
       case Ok(v) =>
         match Settles(op, v)
         case Err(e) => Err(e)
         case Ok(Some(settled)) => Ok(settled)
         case Ok(None) =>
           match Evaluate(b, row, ps)
           case Err(e) => Err(e)
           case Ok(w) => ApplyBinary(v, op, w))
    case NullTest(a, negated) =>
      (match Evaluate(a, row, ps)
       case Err(e) => Err(e)
       case Ok(v) => Ok(Bool(v.IsNull() != negated)))
    case Aggregate(_, _) => Err(Unsupported)
  }

  /** Only true keeps a row; false and unknown both reject it. */
  function Holds(v: Evaluated): Result<bool, SqlError> {
    match v
    case Err(e) => Err(e)
    case Ok(w) =>
      match TruthOf(w)
      case Err(e) => Err(e)
      case Ok(t) => Ok(t.True?)
  }

  function PredicateMatches(x: Expr, row: Row, ps: seq<Value>): Result<bool, SqlError> {
    Holds(Evaluate(x, row, ps))
  }

  predicate ContainsAggregate(x: Expr) {
    match x
    case Aggregate(_, _) => true
    case Unary(_, a) => ContainsAggregate(a)
    case NullTest(a, _) => ContainsAggregate(a)
    case Binary(a, _, b) => ContainsAggregate(a) || ContainsAggregate(b)
    case _ => false
  }

  /** Equality up to a parameter's inferred type and a column's slot. */
  predicate SameExpression(x: Expr, y: Expr) {
    match (x, y)
    case (Literal(v), Literal(w)) => v == w
    case (Parameter(i, _), Parameter(j, _)) => i == j
    case (ColumnRef(c), ColumnRef(d)) => c.table == d.table && c.column == d.column
    case (Unary(o, a), Unary(p, b)) => o == p && SameExpression(a, b)
    case (Binary(a, o, b), Binary(c, p, d)) => o == p && SameExpression(a, c) && SameExpression(b, d)
    case (NullTest(a, m), NullTest(b, n)) => m == n && SameExpression(a, b)
    case (Aggregate(f, None), Aggregate(g, None)) => f == g
    case (Aggregate(f, Some(a)), Aggregate(g, Some(b))) => f == g && SameExpression(a, b)
    case _ => false
  }

  // ------------------------------------------------------------------ three values

  /** An and-tree's conjuncts. */
  predicate Conjunct(x: Expr, y: Expr)
    decreases x
  {
    x == y || (x.Binary? && x.op.And? && (Conjunct(x.left, y) || Conjunct(x.right, y)))
  }

  /** Short circuit or not, a conjunction holds only where every conjunct does. */
  lemma {:induction false} ConjunctHolds(x: Expr, y: Expr, row: Row, ps: seq<Value>)
    requires Conjunct(x, y) && PredicateMatches(x, row, ps) == Ok(true)
    ensures PredicateMatches(y, row, ps) == Ok(true)
    decreases x
  {
    if x != y {
      if Conjunct(x.left, y) {
        ConjunctHolds(x.left, y, row, ps);
      } else {
        ConjunctHolds(x.right, y, row, ps);
      }
    }
  }

  /** Kleene's laws: where both operands have a value, short circuit changes nothing and
      negation swaps the two connectives. */
  lemma ShortCircuitIsKleene(a: Expr, b: Expr, row: Row, ps: seq<Value>)
    requires Evaluate(a, row, ps).Ok? && TruthOf(Evaluate(a, row, ps).value).Ok?
    requires Evaluate(b, row, ps).Ok? && TruthOf(Evaluate(b, row, ps).value).Ok?
    ensures var s, t := TruthOf(Evaluate(a, row, ps).value).value, TruthOf(Evaluate(b, row, ps).value).value;
            && Evaluate(Binary(a, And, b), row, ps) == Ok(s.Conj(t).IntoValue()) == Evaluate(Binary(b, And, a), row, ps)
            && Evaluate(Binary(a, Or, b), row, ps) == Ok(s.Disj(t).IntoValue()) == Evaluate(Binary(b, Or, a), row, ps)
            && Evaluate(Unary(Not, Binary(a, And, b)), row, ps)
               == Evaluate(Binary(Unary(Not, a), Or, Unary(Not, b)), row, ps)
  {
    var s, t := TruthOf(Evaluate(a, row, ps).value).value, TruthOf(Evaluate(b, row, ps).value).value;
    assert Evaluate(Binary(a, And, b), row, ps) == Ok(s.Conj(t).IntoValue());
    assert Evaluate(Binary(a, Or, b), row, ps) == Ok(s.Disj(t).IntoValue());
    assert Evaluate(Unary(Not, a), row, ps) == Ok(s.Neg().IntoValue());
    assert Evaluate(Unary(Not, b), row, ps) == Ok(t.Neg().IntoValue());
  }

  // -------------------------------------------------------------------- parameters

  /** What binding a statement found out about one of its parameters. */
  datatype ParameterSpec = ParameterSpec(index: nat, typeTag: Option<nat>, nullable: bool)

  function CheckSpecs(specs: seq<ParameterSpec>, ps: seq<Value>): Option<SqlError>
    decreases |specs|
  {
    if specs == [] then None
    else
      var spec := specs[0];
      if spec.index >= |ps| then Some(BadConstraint)
      else if Typed(ps[spec.index], spec.typeTag).Err? then Some(WrongType)
      else if ps[spec.index].IsNull() && !spec.nullable then Some(BadConstraint)
      else CheckSpecs(specs[1..], ps)
  }

  /** Runs before any plan is executed. */
  function ValidateParameters(specs: seq<ParameterSpec>, ps: seq<Value>): Option<SqlError> {
    if |specs| != |ps| then Some(BadConstraint) else CheckSpecs(specs, ps)
  }

  predicate Meets(spec: ParameterSpec, ps: seq<Value>) {
    && spec.index < |ps|
    && (spec.typeTag.Some? && !ps[spec.index].IsNull() ==> ps[spec.index].TypeTag() == spec.typeTag.value)
    && (ps[spec.index].IsNull() ==> spec.nullable)
  }

  /** Validation passes exactly when there is one value for each parameter, of its type,
      and null only where allowed. */
  lemma {:induction false} ValidationExactly(specs: seq<ParameterSpec>, ps: seq<Value>)
    ensures CheckSpecs(specs, ps).None? <==> forall i {:trigger specs[i]} :: 0 <= i < |specs| ==> Meets(specs[i], ps)
    ensures ValidateParameters(specs, ps).None? <==>
              |specs| == |ps| && forall i {:trigger specs[i]} :: 0 <= i < |specs| ==> Meets(specs[i], ps)
    decreases |specs|
  {
    if specs != [] {
      ValidationExactly(specs[1..], ps);
      assert forall i :: 0 < i < |specs| ==> specs[i] == specs[1..][i - 1];
      assert (forall i {:trigger specs[i]} :: 0 <= i < |specs| ==> Meets(specs[i], ps))
             <==> Meets(specs[0], ps) && forall i {:trigger specs[1..][i]} ::
                 0 <= i < |specs[1..]| ==> Meets(specs[1..][i], ps);
    }
  }

  predicate SpecifiedBy(index: nat, typeTag: Option<nat>, specs: seq<ParameterSpec>) {
    exists i :: 0 <= i < |specs| && specs[i].index == index && (typeTag.Some? ==> specs[i].typeTag == typeTag)
  }

  /** Every parameter of the expression was recorded, with the type it is used at. */
  predicate Specified(x: Expr, specs: seq<ParameterSpec>) {
    match x
    case Parameter(index, typeTag) => SpecifiedBy(index, typeTag, specs)
    case Unary(_, a) => Specified(a, specs)
    case NullTest(a, _) => Specified(a, specs)
    case Binary(a, _, b) => Specified(a, specs) && Specified(b, specs)
    case Aggregate(_, argument) => argument.Some? ==> Specified(argument.value, specs)
    case _ => true
  }

  /** A validated parameter has a value wherever it is used. */
  lemma ParameterHasValue(x: Expr, specs: seq<ParameterSpec>, row: Row, ps: seq<Value>)
    requires x.Parameter? && Specified(x, specs) && ValidateParameters(specs, ps).None?
    ensures x.index < |ps| && Evaluate(x, row, ps) == Ok(ps[x.index])
  {
    ValidationExactly(specs, ps);
    var i :| 0 <= i < |specs| && specs[i].index == x.index && (x.typeTag.Some? ==> specs[i].typeTag == x.typeTag);
    assert Meets(specs[i], ps);
  }
}
