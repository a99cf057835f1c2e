/** What expressions and queries mean, said without evaluation order, loops or plans, and
    that the executor's answers mean it. */
module QueryMeaning {
  import opened Wrappers
  import opened Ordering
  import opened OrderedKeys
  import opened RowCodec
  import opened Mvcc
  import opened SqlExpr
  import opened QueryPlan
  import opened Executor
  import opened ExecutorLoops

  // ------------------------------------------------------------------------- values

  /** Values of one type are ordered as their encodings are. */
  predicate Before(a: Value, b: Value) {
    !a.IsNull() && a.TypeTag() == b.TypeTag() && Less(EncodeOrdered(a), EncodeOrdered(b))
  }

  predicate Relates(a: Value, op: BinaryOp, b: Value)
    requires op.IsComparison()
  {
    match op
    case Eq => a == b
    case NotEq => a != b
    case Lt => Before(a, b)
    case LtEq => Before(a, b) || a == b
    case Gt => Before(b, a)
    case GtEq => Before(b, a) || a == b
  }

  /** The order of each type. */
  lemma BeforeExactly(a: Value, b: Value)
    ensures Before(a, b) <==> || (a.Int64? && b.Int64? && a.number < b.number)
                              || (a.Bool? && b.Bool? && !a.flag && b.flag)
                              || (a.Text? && b.Text? && Less(a.utf8, b.utf8))
                              || (a.Blob? && b.Blob? && Less(a.data, b.data))
    ensures CheckedCmp(a, b) == Ok(Some(Lesser)) <==> Before(a, b)
  {
    hide EncodeOrdered, Less;
    if !a.IsNull() && a.TypeTag() == b.TypeTag() {
      OrderedExactly(a, b);
      LessTotal(EncodeOrdered(a), EncodeOrdered(b));
      LessIrreflexive(EncodeOrdered(a));
      if a.Text? || a.Blob? {
        LessIrreflexive(Payload(a));
      }
    }
  }

  /** Nothing comes before itself, or both before and after, and one of three holds. */
  lemma BeforeTotal(a: Value, b: Value)
    requires !a.IsNull() && a.TypeTag() == b.TypeTag()
    ensures a == b || Before(a, b) || Before(b, a)
    ensures !(Before(a, b) && Before(b, a)) && (a == b ==> !Before(a, b))
  {
    hide EncodeOrdered, Less;
    BeforeExactly(a, b);
    BeforeExactly(b, a);
    if a.Text? || a.Blob? {
      LessTotal(Payload(a), Payload(b));
      LessIrreflexive(Payload(a));
      if Less(Payload(a), Payload(b)) {
        Asymmetric(Payload(a), Payload(b));
      }
    }
  }

  lemma CmpIs(a: Value, b: Value)
    requires !a.IsNull() && a.TypeTag() == b.TypeTag()
    ensures CheckedCmp(a, b) == Ok(Some(if Before(a, b) then Lesser else if a == b then Equal else Greater))
  {
    hide EncodeOrdered, Less;
    BeforeExactly(a, b);
    BeforeExactly(b, a);
    BeforeTotal(a, b);
  }

  /** The six comparisons: null with a null operand, an error across types, and otherwise
      what the order of the type says; read from the right they are the reversed ones. */
  lemma CompareExactly(a: Value, op: BinaryOp, b: Value)
    requires op.IsComparison()
    ensures Compare(a, op, b) == if a.IsNull() || b.IsNull() then Ok(Null)
            else if a.TypeTag() != b.TypeTag() then Err(WrongType)
            else Ok(Bool(Relates(a, op, b)))
    ensures Compare(a, op, b) == Compare(b, Reversed(op), a)
  {
    hide EncodeOrdered, Less, Before;
    if !a.IsNull() && a.TypeTag() == b.TypeTag() {
      CmpIs(a, b);
      CmpIs(b, a);
      BeforeTotal(a, b);
    }
  }

  // ------------------------------------------------------------------- expressions

  /** False, unknown, true. */
  function Rank(v: Value): nat {
    if v == Bool(true) then 2 else if v == Bool(false) then 0 else 1
  }

  function Ranked(n: nat): Value {
    if n == 0 then Bool(false) else if n == 2 then Bool(true) else Null
  }

  function Smaller(a: nat, b: nat): nat {
    if a <= b then a else b
  }

  function Larger(a: nat, b: nat): nat {
    if a <= b then b else a
  }

  /** The value of an expression: conjunction is the smaller truth value, disjunction the
      larger, and every operand counts. */
  function Meaning(x: Expr, r: ExecRow, ps: seq<Value>): Value {
    match x
    case Literal(v) => v
    case Parameter(i, _) => if i < |ps| then ps[i] else Null
    case ColumnRef(c) => if c.slot < |r.row| then r.row[c.slot] else Null
    case Unary(op, a) =>
      var v := Meaning(a, r, ps);
      if op.Not? then Ranked(2 - Rank(v))
      else if v.Int64? && v.number != LEAST then Int64(-v.number)
      else Null
    case Binary(a, op, b) =>
      var v, w := Meaning(a, r, ps), Meaning(b, r, ps);
      if op.And? then Ranked(Smaller(Rank(v), Rank(w)))
      else if op.Or? then Ranked(Larger(Rank(v), Rank(w)))
      else if v.IsNull() || w.IsNull() then Null
      else Bool(Relates(v, op, w))
    case NullTest(a, negated) => Bool(if negated then Meaning(a, r, ps) != Null else Meaning(a, r, ps) == Null)
    case Aggregate(_, _) => var v := Computed(r.aggregates, x); if v.Ok? then v.value else Null
  }

  lemma ConnectivesMean(v: Value, op: BinaryOp, w: Value)
    requires !op.IsComparison() && TruthOf(v).Ok?
    ensures Settles(op, v).Ok?
    ensures Settles(op, v).value.Some? ==>
              Settles(op, v).value.value
              == Ranked(if op.And? then Smaller(Rank(v), Rank(w)) else Larger(Rank(v), Rank(w)))
    ensures ApplyBinary(v, op, w).Ok? ==>
              ApplyBinary(v, op, w).value
              == Ranked(if op.And? then Smaller(Rank(v), Rank(w)) else Larger(Rank(v), Rank(w)))
  {
  }

  lemma OperatorMeans(v: Value, op: BinaryOp, w: Value)
    requires op.IsComparison() && ApplyBinary(v, op, w).Ok?
    ensures ApplyBinary(v, op, w).value == if v.IsNull() || w.IsNull() then Null else Bool(Relates(v, op, w))
  {
    hide Relates;
    CompareExactly(v, op, w);
  }

  lemma UnaryMeans(op: UnaryOp, v: Value)
    requires ApplyUnary(op, v).Ok?
    ensures ApplyUnary(op, v).value == if op.Not? then Ranked(2 - Rank(v))
            else if v.Int64? && v.number != LEAST then Int64(-v.number) else Null
  {
  }

  /** Where evaluation, with its short circuits, gives a value, it is the meaning. */
  lemma {:induction false} EvaluateMeans(x: Expr, r: ExecRow, ps: seq<Value>)
    requires EvaluateExec(x, r, ps).Ok?
    ensures EvaluateExec(x, r, ps).value == Meaning(x, r, ps)
    decreases x
  {
    hide Relates, Compare, Settles, ApplyBinary, ApplyUnary, Rank, Ranked;
    SplitEvaluation(x, r, ps);
    match x
    case Unary(op, a) =>
      EvaluateMeans(a, r, ps);
      UnaryMeans(op, Meaning(a, r, ps));
    case NullTest(a, _) => EvaluateMeans(a, r, ps);
    case Binary(a, op, b) =>
      EvaluateMeans(a, r, ps);
      var v := Meaning(a, r, ps);
      if op.IsComparison() {
        assert Settles(op, v) == Ok(None) by { NothingSettles(op, v); }
        EvaluateMeans(b, r, ps);
        OperatorMeans(v, op, Meaning(b, r, ps));
      } else {
        assert TruthOf(v).Ok? by { SettlesTruth(op, v); }
        if Settles(op, v) == Ok(None) {
          EvaluateMeans(b, r, ps);
        }
        ConnectivesMean(v, op, Meaning(b, r, ps));
      }
    case _ =>
  }

  lemma NothingSettles(op: BinaryOp, v: Value)
    requires op.IsComparison()
    ensures Settles(op, v) == Ok(None)
  {
  }

  lemma SettlesTruth(op: BinaryOp, v: Value)
    requires !op.IsComparison() && Settles(op, v).Ok?
    ensures TruthOf(v).Ok?
  {
  }

  /** An expression's evaluation in terms of its operands', with or without aggregates. */
  lemma {:induction false} SplitEvaluation(x: Expr, r: ExecRow, ps: seq<Value>)
    ensures x.Unary? ==> EvaluateExec(x, r, ps) == var a := EvaluateExec(x.operand, r, ps);
                                                  if a.Err? then a else ApplyUnary(x.unary, a.value)
    ensures x.NullTest? ==> EvaluateExec(x, r, ps) == var a := EvaluateExec(x.operand, r, ps);
                                                     if a.Err? then a else Ok(Bool(a.value.IsNull() != x.negated))
    ensures x.Binary? ==>
              EvaluateExec(x, r, ps) == var a := EvaluateExec(x.left, r, ps);
                                        if a.Err? then a
                                        else
                                          var settled := Settles(x.op, a.value);
                                          if settled.Err? then Err(settled.error)
                                          else if settled.value.Some? then Ok(settled.value.value)
                                          else
                                            var b := EvaluateExec(x.right, r, ps);
                                            if b.Err? then b else ApplyBinary(a.value, x.op, b.value)
    ensures x.Literal? ==> EvaluateExec(x, r, ps) == Ok(x.value)
    ensures x.Parameter? && EvaluateExec(x, r, ps).Ok? ==> x.index < |ps| && EvaluateExec(x, r, ps).value == ps[x.index]
    ensures x.ColumnRef? && EvaluateExec(x, r, ps).Ok? ==>
              x.column.slot < |r.row| && EvaluateExec(x, r, ps).value == r.row[x.column.slot]
    ensures x.Aggregate? ==> EvaluateExec(x, r, ps) == Computed(r.aggregates, x)
  {
    hide Settles, ApplyBinary, ApplyUnary, Computed;
  }

  /** Every operand has a value of the type its place asks for. */
  predicate Typed(x: Expr, r: ExecRow, ps: seq<Value>) {
    match x
    case Literal(_) => true
    case Parameter(i, tag) => i < |ps| && (tag.Some? && !ps[i].IsNull() ==> ps[i].TypeTag() == tag.value)
    case ColumnRef(c) => c.slot < |r.row| && (!r.row[c.slot].IsNull() ==> r.row[c.slot].TypeTag() == c.typeTag)
    case Unary(op, a) =>
      && Typed(a, r, ps)
      && var v := Meaning(a, r, ps);
         v.IsNull() || (if op.Not? then v.Bool? else v.Int64? && v.number != LEAST)
    case Binary(a, op, b) =>
      && Typed(a, r, ps) && Typed(b, r, ps)
      && var v, w := Meaning(a, r, ps), Meaning(b, r, ps);
         if op.IsComparison() then v.IsNull() || w.IsNull() || v.TypeTag() == w.TypeTag()
         else (v.IsNull() || v.Bool?) && (w.IsNull() || w.Bool?)
    case NullTest(a, _) => Typed(a, r, ps)
    case Aggregate(_, _) => Computed(r.aggregates, x).Ok?
  }

  /** Where every operand has a value of its type, evaluation succeeds. */
  lemma {:induction false} TypedEvaluates(x: Expr, r: ExecRow, ps: seq<Value>)
    requires Typed(x, r, ps)
    ensures EvaluateExec(x, r, ps) == Ok(Meaning(x, r, ps))
    decreases x
  {
    hide Relates, Rank, Ranked;
    SplitEvaluation(x, r, ps);
    match x
    case Unary(op, a) =>
      TypedEvaluates(a, r, ps);
      EvaluateMeans(x, r, ps);
    case NullTest(a, _) => TypedEvaluates(a, r, ps);
    case Binary(a, op, b) =>
      TypedEvaluates(a, r, ps);
      TypedEvaluates(b, r, ps);
      if op.IsComparison() {
        CompareExactly(Meaning(a, r, ps), op, Meaning(b, r, ps));
      }
      EvaluateMeans(x, r, ps);
    case _ =>
  }
}
