/** When the operators of a query succeed, exactly. */
module QuerySuccess {
  import opened Wrappers
  import opened Ordering
  import opened OrderedKeys
  import opened RowCodec
  import opened Mvcc
  import opened SqlExpr
  import opened QueryPlan
  import opened Executor
  import opened ExecutorLoops
  import opened QueryMeaning
  import opened QueryAnswers

  predicate Decides(x: Expr, rows: seq<ExecRow>, ps: seq<Value>) {
    forall i :: 0 <= i < |rows| ==> PredicateExec(x, rows[i], ps).Ok?
  }

  predicate HasValues(x: Expr, rows: seq<ExecRow>, ps: seq<Value>) {
    forall i :: 0 <= i < |rows| ==> EvaluateExec(x, rows[i], ps).Ok?
  }

  predicate AllHaveValues(xs: seq<Expr>, r: ExecRow, ps: seq<Value>) {
    forall k :: 0 <= k < |xs| ==> EvaluateExec(xs[k], r, ps).Ok?
  }

  /** A filter succeeds exactly where its condition is decided on every row. */
  lemma {:induction false} FilterSucceeds(rows: seq<ExecRow>, x: Expr, ps: seq<Value>)
    ensures FilterRows(rows, x, ps).Ok? <==> Decides(x, rows, ps)
    decreases |rows|
  {
    hide PredicateExec;
    if rows != [] {
      FilterSucceeds(rows[1..], x, ps);
      assert forall i :: 0 < i < |rows| ==> rows[i] == rows[1..][i - 1];
      if Decides(x, rows, ps) {
        forall i | 0 <= i < |rows[1..]| ensures PredicateExec(x, rows[1..][i], ps).Ok? {
          assert rows[1..][i] == rows[i + 1];
        }
      }
    }
  }

  lemma {:induction false} EvaluateAllSucceeds(xs: seq<Expr>, r: ExecRow, ps: seq<Value>)
    ensures EvaluateAll(xs, r, ps).Ok? <==> AllHaveValues(xs, r, ps)
    decreases |xs|
  {
    hide EvaluateExec;
    if xs != [] {
      EvaluateAllSucceeds(xs[1..], r, ps);
      assert forall i :: 0 < i < |xs| ==> xs[i] == xs[1..][i - 1];
      if AllHaveValues(xs, r, ps) {
        forall i | 0 <= i < |xs[1..]| ensures EvaluateExec(xs[1..][i], r, ps).Ok? {
          assert xs[1..][i] == xs[i + 1];
        }
      }
    }
  }

  predicate EveryRow(xs: seq<Expr>, rows: seq<ExecRow>, ps: seq<Value>) {
    forall i :: 0 <= i < |rows| ==> AllHaveValues(xs, rows[i], ps)
  }

  lemma EveryRowFirst(xs: seq<Expr>, rows: seq<ExecRow>, ps: seq<Value>)
    requires rows != []
    ensures EveryRow(xs, rows, ps) <==> AllHaveValues(xs, rows[0], ps) && EveryRow(xs, rows[1..], ps)
  {
    hide AllHaveValues;
    assert forall i :: 0 < i < |rows| ==> rows[i] == rows[1..][i - 1];
    if EveryRow(xs, rows, ps) {
      forall i | 0 <= i < |rows[1..]| ensures AllHaveValues(xs, rows[1..][i], ps) {
        assert rows[1..][i] == rows[i + 1];
      }
    }
  }

  /** A projection succeeds exactly where every column has a value on every row. */
  lemma {:induction false} ProjectSucceeds(rows: seq<ExecRow>, xs: seq<Expr>, ps: seq<Value>)
    ensures ProjectRows(rows, xs, ps).Ok? <==> EveryRow(xs, rows, ps)
    decreases |rows|
  {
    hide EvaluateAll, AllHaveValues, EveryRow;
    if rows != [] {
      EvaluateAllSucceeds(xs, rows[0], ps);
      ProjectSucceeds(rows[1..], xs, ps);
      EveryRowFirst(xs, rows, ps);
    } else {
      assert EveryRow(xs, [], ps) by { NoRows(xs, ps); }
    }
  }

  lemma NoRows(xs: seq<Expr>, ps: seq<Value>)
    ensures EveryRow(xs, [], ps)
  {
  }

  lemma {:induction false} KeyRowsSucceed(rows: seq<ExecRow>, orderBy: seq<Sorting>, ps: seq<Value>)
    ensures KeyRows(rows, orderBy, ps).Ok? <==> EveryRow(SortExprs(orderBy), rows, ps)
    decreases |rows|
  {
    hide EvaluateAll, AllHaveValues, EveryRow, SortExprs;
    if rows != [] {
      EvaluateAllSucceeds(SortExprs(orderBy), rows[0], ps);
      KeyRowsSucceed(rows[1..], orderBy, ps);
      EveryRowFirst(SortExprs(orderBy), rows, ps);
    } else {
      NoRows(SortExprs(orderBy), ps);
    }
  }

  /** ORDER BY succeeds exactly where every sort expression has a value on every row. */
  lemma SortSucceeds(rows: seq<ExecRow>, orderBy: seq<Sorting>, ps: seq<Value>)
    ensures SortRows(rows, orderBy, ps).Ok?
            <==> forall i, k :: 0 <= i < |rows| && 0 <= k < |orderBy| ==> EvaluateExec(orderBy[k].key, rows[i], ps).Ok?
  {
    hide KeyRows, EvaluateExec, SortExprs;
    KeyRowsSucceed(rows, orderBy, ps);
    SortExprsAt(orderBy);
    var xs := SortExprs(orderBy);
    if EveryRow(xs, rows, ps) {
      forall i, k | 0 <= i < |rows| && 0 <= k < |orderBy| ensures EvaluateExec(orderBy[k].key, rows[i], ps).Ok? {
        assert AllHaveValues(xs, rows[i], ps) && xs[k] == orderBy[k].key;
      }
    } else {
      var i :| 0 <= i < |rows| && !AllHaveValues(xs, rows[i], ps);
      var k :| 0 <= k < |xs| && !EvaluateExec(xs[k], rows[i], ps).Ok?;
      assert xs[k] == orderBy[k].key;
    }
  }

  /** LIMIT succeeds exactly for a number of rows. */
  lemma LimitSucceeds(rows: seq<ExecRow>, x: Expr, ps: seq<Value>)
    ensures LimitRows(rows, x, ps).Ok? <==>
              var n := EvaluateExec(x, ExecRow([], []), ps); n.Ok? && n.value.Int64? && n.value.number >= 0
  {
  }

  // -------------------------------------------------------------------------- joins

  /** How many pairs the condition is true of. */
  function Accepted(outer: ExecRow, inners: seq<ExecRow>, on: Expr, ps: seq<Value>): nat {
    if inners == [] then 0
    else (if Accepts(on, Combine(outer, inners[0]), ps) then 1 else 0) + Accepted(outer, inners[1..], on, ps)
  }

  function AcceptedPairs(outers: seq<ExecRow>, inners: seq<ExecRow>, on: Expr, ps: seq<Value>): nat {
    if outers == [] then 0 else Accepted(outers[0], inners, on, ps) + AcceptedPairs(outers[1..], inners, on, ps)
  }

  predicate PairsDecided(outers: seq<ExecRow>, inners: seq<ExecRow>, on: Expr, ps: seq<Value>) {
    forall i :: 0 <= i < |outers| ==> Decides(on, Combined(outers[i], inners), ps)
  }

  lemma DecidesFirst(x: Expr, rows: seq<ExecRow>, ps: seq<Value>)
    requires rows != []
    ensures Decides(x, rows, ps) <==> PredicateExec(x, rows[0], ps).Ok? && Decides(x, rows[1..], ps)
  {
    FilterSucceeds(rows, x, ps);
    FilterSucceeds(rows[1..], x, ps);
  }

  lemma {:induction false} InnerSucceeds(outer: ExecRow, inners: seq<ExecRow>, on: Expr, ps: seq<Value>,
                                         output: seq<ExecRow>)
    requires |output| <= MAX_INTERMEDIATE_ROWS
    ensures JoinInner(outer, inners, on, ps, output).Ok?
            <==> Decides(on, Combined(outer, inners), ps)
                 && |output| + Accepted(outer, inners, on, ps) <= MAX_INTERMEDIATE_ROWS
    ensures JoinInner(outer, inners, on, ps, output).Ok? ==>
              |JoinInner(outer, inners, on, ps, output).value| == |output| + Accepted(outer, inners, on, ps)
    decreases |inners|
  {
    hide PredicateExec, Accepts, Decides, Combine;
    if inners == [] {
      assert Decides(on, Combined(outer, inners), ps) by { NothingToDecide(outer, on, ps); }
    } else {
      var joined, all := Combine(outer, inners[0]), Combined(outer, inners);
      assert all[0] == joined && all[1..] == Combined(outer, inners[1..]);
      DecidesFirst(on, all, ps);
      if PredicateExec(on, joined, ps).Ok? {
        PredicateMeans(on, joined, ps);
        if !Accepts(on, joined, ps) {
          InnerSucceeds(outer, inners[1..], on, ps, output);
        } else if |output| + 1 <= MAX_INTERMEDIATE_ROWS {
          InnerSucceeds(outer, inners[1..], on, ps, output + [joined]);
        }
      }
    }
  }

  lemma NothingToDecide(outer: ExecRow, on: Expr, ps: seq<Value>)
    ensures Decides(on, Combined(outer, []), ps)
  {
  }

  lemma PairsDecidedFirst(outers: seq<ExecRow>, inners: seq<ExecRow>, on: Expr, ps: seq<Value>)
    requires outers != []
    ensures PairsDecided(outers, inners, on, ps)
            <==> Decides(on, Combined(outers[0], inners), ps) && PairsDecided(outers[1..], inners, on, ps)
  {
    hide Decides, Combined;
    assert forall i :: 0 < i < |outers| ==> outers[i] == outers[1..][i - 1];
    if PairsDecided(outers, inners, on, ps) {
      forall i | 0 <= i < |outers[1..]| ensures Decides(on, Combined(outers[1..][i], inners), ps) {
        assert outers[1..][i] == outers[i + 1];
      }
    }
  }

  /** A join succeeds exactly where its condition is decided on every pair and true of at
      most a million. */
  lemma {:induction false} JoinSucceeds(outers: seq<ExecRow>, inners: seq<ExecRow>, on: Expr, ps: seq<Value>,
                                        output: seq<ExecRow>)
    requires |output| <= MAX_INTERMEDIATE_ROWS
    ensures JoinNested(outers, inners, on, ps, output).Ok?
            <==> PairsDecided(outers, inners, on, ps)
                 && |output| + AcceptedPairs(outers, inners, on, ps) <= MAX_INTERMEDIATE_ROWS
    decreases |outers|
  {
    hide JoinInner, Accepted, Decides, PairsDecided, Combined;
    if outers != [] {
      InnerSucceeds(outers[0], inners, on, ps, output);
      PairsDecidedFirst(outers, inners, on, ps);
      if JoinInner(outers[0], inners, on, ps, output).Ok? {
        JoinSucceeds(outers[1..], inners, on, ps, JoinInner(outers[0], inners, on, ps, output).value);
      }
    } else {
      assert PairsDecided([], inners, on, ps) by { NoPairs(inners, on, ps); }
    }
  }

  lemma NoPairs(inners: seq<ExecRow>, on: Expr, ps: seq<Value>)
    ensures PairsDecided([], inners, on, ps)
  {
  }

  // --------------------------------------------------------------------- aggregates

  lemma HasValuesFirst(x: Expr, rows: seq<ExecRow>, ps: seq<Value>)
    requires rows != []
    ensures HasValues(x, rows, ps) <==> EvaluateExec(x, rows[0], ps).Ok? && HasValues(x, rows[1..], ps)
  {
    hide EvaluateExec;
    assert forall i :: 0 < i < |rows| ==> rows[i] == rows[1..][i - 1];
    if HasValues(x, rows, ps) {
      forall i | 0 <= i < |rows[1..]| ensures EvaluateExec(x, rows[1..][i], ps).Ok? {
        assert rows[1..][i] == rows[i + 1];
      }
    }
  }

  lemma {:induction false} CountSucceeds(x: Expr, rows: seq<ExecRow>, ps: seq<Value>)
    ensures CountValues(x, rows, ps).Ok? <==> HasValues(x, rows, ps)
    decreases |rows|
  {
    hide EvaluateExec, HasValues;
    if rows != [] {
      CountSucceeds(x, rows[1..], ps);
      HasValuesFirst(x, rows, ps);
    } else {
      assert HasValues(x, [], ps) by { NothingHasValues(x, ps); }
    }
  }

  lemma NothingHasValues(x: Expr, ps: seq<Value>)
    ensures HasValues(x, [], ps)
  {
  }

  lemma {:induction false} ExtremeSucceeds(x: Expr, rows: seq<ExecRow>, ps: seq<Value>, wanted: Order, best: Value)
    ensures ExtremeFrom(x, rows, ps, wanted, best).Ok? <==> HasValues(x, rows, ps)
    decreases |rows|
  {
    hide EvaluateExec, HasValues, Replaces;
    if rows != [] {
      HasValuesFirst(x, rows, ps);
      if EvaluateExec(x, rows[0], ps).Ok? {
        var v := EvaluateExec(x, rows[0], ps).value;
        ExtremeSucceeds(x, rows[1..], ps, wanted,
                        if !v.IsNull() && (best.IsNull() || Replaces(v, best, wanted)) then v else best);
      }
    } else {
      NothingHasValues(x, ps);
    }
  }

  predicate Fits(n: int) {
    LEAST as int <= n < -(LEAST as int)
  }

  /** Numbers or nulls, whose sum stays in range as they are added one by one. */
  predicate Addable(vs: seq<Value>, from: int) {
    vs == []
    || (vs[0].IsNull() && Addable(vs[1..], from))
    || (vs[0].Int64? && Fits(from + vs[0].number as int) && Addable(vs[1..], from + vs[0].number as int))
  }

  lemma {:induction false} SumSucceeds(x: Expr, rows: seq<ExecRow>, ps: seq<Value>, sum: Option<i64>)
    ensures SumFrom(x, rows, ps, sum).Ok?
            <==> HasValues(x, rows, ps) && Addable(Values(x, rows, ps), if sum.Some? then sum.value as int else 0)
    decreases |rows|
  {
    hide EvaluateExec, HasValues, Meaning, Values;
    if rows != [] {
      HasValuesFirst(x, rows, ps);
      ValuesFirst(x, rows, ps);
      var rest := Values(x, rows[1..], ps);
      if EvaluateExec(x, rows[0], ps).Ok? {
        EvaluateMeans(x, rows[0], ps);
        var v := Meaning(x, rows[0], ps);
        assert ([v] + rest)[0] == v && ([v] + rest)[1..] == rest;
        var added := if v.Int64? then CheckedAdd(if sum.Some? then sum.value else 0, v.number) else sum;
        if v.IsNull() || (v.Int64? && added.Some?) {
          SumSucceeds(x, rows[1..], ps, added);
        }
      }
    } else {
      NothingHasValues(x, ps);
      assert Values(x, rows, ps) == [];
    }
  }

  /** An aggregate whose argument has a value on every row and whose result is in range. */
  predicate Computable(x: Expr, rows: seq<ExecRow>, ps: seq<Value>) {
    && x.Aggregate?
    && if x.argument.None? then x.aggregate.Count? && Fits(|rows|)
       else
         var vs := Values(x.argument.value, rows, ps);
         && HasValues(x.argument.value, rows, ps)
         && (x.aggregate.Count? ==> Fits(|rows| - multiset(vs)[Null]))
         && (x.aggregate.Sum? ==> Addable(vs, 0))
  }

  /** Those are the aggregates that succeed. */
  lemma AggregateSucceeds(x: Expr, rows: seq<ExecRow>, ps: seq<Value>)
    ensures ComputeAggregate(x, rows, ps).Ok? <==> Computable(x, rows, ps)
  {
    hide CountValues, SumFrom, ExtremeFrom, HasValues, Values, Addable;
    if x.Aggregate? && x.argument.Some? {
      var a := x.argument.value;
      match x.aggregate
      case Count =>
        CountSucceeds(a, rows, ps);
        if CountValues(a, rows, ps).Ok? {
          CountMeans(a, rows, ps);
        }
      case Sum => SumSucceeds(a, rows, ps, None);
      case Min => ExtremeSucceeds(a, rows, ps, Lesser, Null);
      case Max => ExtremeSucceeds(a, rows, ps, Greater, Null);
    }
  }

  predicate AllComputed(xs: seq<Expr>, rows: seq<ExecRow>, ps: seq<Value>) {
    forall k :: 0 <= k < |xs| ==> Computable(xs[k], rows, ps)
  }

  lemma {:induction false} ComputeAllSucceeds(xs: seq<Expr>, rows: seq<ExecRow>, ps: seq<Value>)
    ensures ComputeAll(xs, rows, ps).Ok? <==> AllComputed(xs, rows, ps)
    decreases |xs|
  {
    hide ComputeAggregate, Computable;
    if xs != [] {
      AggregateSucceeds(xs[0], rows, ps);
      ComputeAllSucceeds(xs[1..], rows, ps);
      assert forall i :: 0 < i < |xs| ==> xs[i] == xs[1..][i - 1];
      if AllComputed(xs, rows, ps) {
        forall i | 0 <= i < |xs[1..]| ensures Computable(xs[1..][i], rows, ps) {
          assert xs[1..][i] == xs[i + 1];
        }
      }
    }
  }

  predicate Groupable(groupBy: seq<Expr>, r: ExecRow, ps: seq<Value>) {
    AllHaveValues(groupBy, r, ps) && EncodeRow(GroupValues(r, groupBy, ps)).Some?
  }

  lemma GroupKeySucceeds(groupBy: seq<Expr>, r: ExecRow, ps: seq<Value>)
    ensures GroupKey(groupBy, r, ps).Ok? <==> Groupable(groupBy, r, ps)
  {
    hide EvaluateAll, EncodeRow, Meaning, AllHaveValues;
    EvaluateAllSucceeds(groupBy, r, ps);
    if EvaluateAll(groupBy, r, ps).Ok? {
      EvaluateAllMeans(groupBy, r, ps);
      assert EvaluateAll(groupBy, r, ps).value == GroupValues(r, groupBy, ps);
    }
  }

  predicate AllGroupable(groupBy: seq<Expr>, rows: seq<ExecRow>, ps: seq<Value>) {
    forall i :: 0 <= i < |rows| ==> Groupable(groupBy, rows[i], ps)
  }

  lemma {:induction false} GroupKeysSucceed(groupBy: seq<Expr>, rows: seq<ExecRow>, ps: seq<Value>)
    ensures GroupKeys(groupBy, rows, ps).Ok? <==> AllGroupable(groupBy, rows, ps)
    decreases |rows|
  {
    hide GroupKey, Groupable;
    if rows != [] {
      GroupKeySucceeds(groupBy, rows[0], ps);
      GroupKeysSucceed(groupBy, rows[1..], ps);
      assert forall i :: 0 < i < |rows| ==> rows[i] == rows[1..][i - 1];
      if AllGroupable(groupBy, rows, ps) {
        forall i | 0 <= i < |rows[1..]| ensures Groupable(groupBy, rows[1..][i], ps) {
          assert rows[1..][i] == rows[i + 1];
        }
      }
    }
  }

  predicate GroupsComputed(names: seq<Bytes>, rows: seq<ExecRow>, keys: seq<Bytes>, xs: seq<Expr>, ps: seq<Value>)
    requires |rows| == |keys|
  {
    forall g :: 0 <= g < |names| ==> AllComputed(xs, RowsKeyed(rows, keys, names[g]), ps)
  }

  lemma {:induction false} AggregateGroupsSucceed(names: seq<Bytes>, rows: seq<ExecRow>, keys: seq<Bytes>,
                                                  xs: seq<Expr>, ps: seq<Value>)
    requires |rows| == |keys|
    ensures AggregateGroups(names, rows, keys, xs, ps).Ok? <==> GroupsComputed(names, rows, keys, xs, ps)
    decreases |names|
  {
    hide ComputeAll, AllComputed, RowsKeyed;
    if names != [] {
      ComputeAllSucceeds(xs, RowsKeyed(rows, keys, names[0]), ps);
      AggregateGroupsSucceed(names[1..], rows, keys, xs, ps);
      assert forall i :: 0 < i < |names| ==> names[i] == names[1..][i - 1];
      if GroupsComputed(names, rows, keys, xs, ps) {
        forall i | 0 <= i < |names[1..]| ensures AllComputed(xs, RowsKeyed(rows, keys, names[1..][i]), ps) {
          assert names[1..][i] == names[i + 1];
        }
      }
    }
  }

  /** The rows of a row's group. */
  function Fellows(rows: seq<ExecRow>, r: ExecRow, groupBy: seq<Expr>, ps: seq<Value>): seq<ExecRow> {
    if rows == [] then []
    else (if SameKey(rows[0], r, groupBy, ps) then [rows[0]] else []) + Fellows(rows[1..], r, groupBy, ps)
  }

  lemma {:induction false} KeyedAreFellows(rows: seq<ExecRow>, keys: seq<Bytes>, r: ExecRow, groupBy: seq<Expr>,
                                           ps: seq<Value>)
    requires |rows| == |keys| && GroupKey(groupBy, r, ps).Ok?
    requires forall i :: 0 <= i < |rows| ==> GroupKey(groupBy, rows[i], ps) == Ok(keys[i])
    ensures RowsKeyed(rows, keys, GroupKey(groupBy, r, ps).value) == Fellows(rows, r, groupBy, ps)
    decreases |rows|
  {
    hide GroupKey, SameKey;
    if rows != [] {
      SameKeyExactly(groupBy, rows[0], r, ps);
      assert forall i :: 0 <= i < |rows[1..]| ==> rows[1..][i] == rows[i + 1];
      KeyedAreFellows(rows[1..], keys[1..], r, groupBy, ps);
    }
  }

  /** GROUP BY succeeds exactly where every row can be put into a group and every aggregate
      of every group has a value. */
  lemma AggregationSucceeds(rows: seq<ExecRow>, groupBy: seq<Expr>, xs: seq<Expr>, ps: seq<Value>)
    ensures AggregateRows(rows, groupBy, xs, ps).Ok?
            <==> && AllGroupable(groupBy, rows, ps)
                 && (rows == [] && groupBy == [] ==> AllComputed(xs, [], ps))
                 && forall i :: 0 <= i < |rows| ==> AllComputed(xs, Fellows(rows, rows[i], groupBy, ps), ps)
  {
    hide GroupKeys, GroupNames, RowsKeyed, AllComputed, AggregateGroups, AllGroupable, Fellows, GroupKey;
    GroupKeysSucceed(groupBy, rows, ps);
    if AllGroupable(groupBy, rows, ps) {
      OneKeyEach(groupBy, rows, ps);
      var keys := GroupKeys(groupBy, rows, ps).value;
      var names := GroupNames(groupBy, keys);
      AggregateGroupsSucceed(names, rows, keys, xs, ps);
      NamesMean(groupBy, keys);
      forall i | 0 <= i < |rows| ensures GroupKey(groupBy, rows[i], ps) == Ok(keys[i]) {
        GroupKeysAt(groupBy, rows, ps, i);
      }
      forall i | 0 <= i < |rows| ensures RowsKeyed(rows, keys, keys[i]) == Fellows(rows, rows[i], groupBy, ps) {
        KeyedAreFellows(rows, keys, rows[i], groupBy, ps);
      }
      GroupsAreFellows(rows, keys, names, groupBy, xs, ps);
    }
  }

  lemma GroupsAreFellows(rows: seq<ExecRow>, keys: seq<Bytes>, names: seq<Bytes>, groupBy: seq<Expr>, xs: seq<Expr>,
                         ps: seq<Value>)
    requires |rows| == |keys| && forall k :: k in keys ==> k in names
    requires keys != [] ==> forall k :: k in names ==> k in keys
    requires keys == [] ==> names == if groupBy == [] then [[]] else []
    requires forall i :: 0 <= i < |rows| ==> RowsKeyed(rows, keys, keys[i]) == Fellows(rows, rows[i], groupBy, ps)
    ensures GroupsComputed(names, rows, keys, xs, ps)
            <==> && (rows == [] && groupBy == [] ==> AllComputed(xs, [], ps))
                 && forall i :: 0 <= i < |rows| ==> AllComputed(xs, Fellows(rows, rows[i], groupBy, ps), ps)
  {
    hide AllComputed, Fellows;
    if GroupsComputed(names, rows, keys, xs, ps) {
      forall i | 0 <= i < |rows| ensures AllComputed(xs, Fellows(rows, rows[i], groupBy, ps), ps) {
        assert keys[i] in keys;
        var g :| 0 <= g < |names| && names[g] == keys[i];
      }
      if rows == [] && groupBy == [] {
        assert names[0] == [] && RowsKeyed(rows, keys, names[0]) == [];
      }
    } else {
      var g :| 0 <= g < |names| && !AllComputed(xs, RowsKeyed(rows, keys, names[g]), ps);
      if rows != [] {
        assert names[g] in names;
        var i :| 0 <= i < |keys| && keys[i] == names[g];
      }
    }
  }

  // --------------------------------------------------------------------------- plans

  lemma {:induction false} FilterShrinks(rows: seq<ExecRow>, x: Expr, ps: seq<Value>)
    requires FilterRows(rows, x, ps).Ok?
    ensures |FilterRows(rows, x, ps).value| <= |rows|
    decreases |rows|
  {
    hide PredicateExec;
    if rows != [] {
      FilterShrinks(rows[1..], x, ps);
    }
  }

  lemma {:induction false} SortedSize(s: set<Bytes>)
    ensures |Ordering.Sorted(s)| == |s|
    decreases |s|
  {
    if s != {} {
      var m := Least(s);
      SortedSize(s - {m});
      assert Ordering.Sorted(s) == [m] + Ordering.Sorted(s - {m});
    }
  }

  lemma {:induction false} MembersSize(keys: seq<Bytes>)
    ensures |Members(keys)| <= |keys|
    decreases |keys|
  {
    if keys != [] {
      MembersSize(keys[1..]);
      assert keys == [keys[0]] + keys[1..];
      assert Members(keys) == {keys[0]} + Members(keys[1..]);
    }
  }

  lemma {:induction false} OneRowEach(names: seq<Bytes>, rows: seq<ExecRow>, keys: seq<Bytes>, xs: seq<Expr>,
                                      ps: seq<Value>)
    requires |rows| == |keys| && AggregateGroups(names, rows, keys, xs, ps).Ok?
    ensures |AggregateGroups(names, rows, keys, xs, ps).value| == |names|
    decreases |names|
  {
    hide AggregateGroup, RowsKeyed;
    if names != [] {
      OneRowEach(names[1..], rows, keys, xs, ps);
    }
  }

  lemma GroupsShrink(rows: seq<ExecRow>, groupBy: seq<Expr>, xs: seq<Expr>, ps: seq<Value>)
    requires AggregateRows(rows, groupBy, xs, ps).Ok?
    ensures |AggregateRows(rows, groupBy, xs, ps).value| <= if rows == [] then 1 else |rows|
  {
    hide GroupKeys, AggregateGroups, Members;
    OneKeyEach(groupBy, rows, ps);
    var keys := GroupKeys(groupBy, rows, ps).value;
    SortedSize(Members(keys));
    MembersSize(keys);
    OneRowEach(GroupNames(groupBy, keys), rows, keys, xs, ps);
  }

  /** What scans and nested loops return, if they do. */
  function Found(e: Engine, t: Transaction, p: LogicalPlan, ps: seq<Value>): seq<ExecRow> {
    var r := Execute(e, t, Naive(p), ps);
    if r.Ok? then r.value else []
  }

  /** A readable snapshot of known tables with at most a million rows, joins of at most a
      million pairs, and every expression with a value on every row it is asked of. */
  predicate Feasible(e: Engine, t: Transaction, p: LogicalPlan, ps: seq<Value>)
    decreases p
  {
    match p
    case Scan(table) =>
      SnapshotOk(e, t) && table.meta.id in e.catalog.tables
      && |ScanTable(e, t, table.meta.id)| <= MAX_INTERMEDIATE_ROWS
    case Filter(a, x) => Feasible(e, t, a, ps) && Decides(x, Found(e, t, a, ps), ps)
    case Join(a, b, on) =>
      && Feasible(e, t, a, ps) && Feasible(e, t, b, ps)
      && PairsDecided(Found(e, t, a, ps), Found(e, t, b, ps), on, ps)
      && AcceptedPairs(Found(e, t, a, ps), Found(e, t, b, ps), on, ps) <= MAX_INTERMEDIATE_ROWS
    case Aggregated(a, groupBy, xs) => Feasible(e, t, a, ps) && Aggregable(Found(e, t, a, ps), groupBy, xs, ps)
    case Sort(a, orderBy) => Feasible(e, t, a, ps) && EveryRow(SortExprs(orderBy), Found(e, t, a, ps), ps)
    case Limit(a, x) => Feasible(e, t, a, ps) && IsCount(x, ps)
    case Project(a, xs) => Feasible(e, t, a, ps) && EveryRow(xs, Found(e, t, a, ps), ps)
  }

  predicate IsCount(x: Expr, ps: seq<Value>) {
    var n := EvaluateExec(x, ExecRow([], []), ps);
    n.Ok? && n.value.Int64? && n.value.number >= 0
  }

  predicate Aggregable(rows: seq<ExecRow>, groupBy: seq<Expr>, xs: seq<Expr>, ps: seq<Value>) {
    && AllGroupable(groupBy, rows, ps)
    && (rows == [] && groupBy == [] ==> AllComputed(xs, [], ps))
    && forall i :: 0 <= i < |rows| ==> AllComputed(xs, Fellows(rows, rows[i], groupBy, ps), ps)
  }

  lemma PlainSize(rows: seq<Row>)
    ensures |Plain(rows)| == |rows|
    decreases |rows|
  {
    if rows != [] {
      PlainSize(rows[1..]);
    }
  }

  /** One operator over rows within bounds. */
  lemma OperatorSucceeds(e: Engine, t: Transaction, p: LogicalPlan, ps: seq<Value>)
    requires !p.Scan? && !p.Join? && Execute(e, t, Naive(p.input), ps).Ok?
    requires |Execute(e, t, Naive(p.input), ps).value| <= MAX_INTERMEDIATE_ROWS
    ensures var rows := Execute(e, t, Naive(p.input), ps).value;
            Execute(e, t, Naive(p), ps).Ok? <==>
              match p
              case Filter(_, x) => Decides(x, rows, ps)
              case Aggregated(_, groupBy, xs) => Aggregable(rows, groupBy, xs, ps)
              case Sort(_, orderBy) => EveryRow(SortExprs(orderBy), rows, ps)
              case Limit(_, x) => IsCount(x, ps)
              case Project(_, xs) => EveryRow(xs, rows, ps)
              case _ => true
    ensures Execute(e, t, Naive(p), ps).Ok? ==> |Execute(e, t, Naive(p), ps).value| <= MAX_INTERMEDIATE_ROWS
  {
    hide FilterRows, AggregateRows, SortRows, LimitRows, ProjectRows, Decides, EveryRow, IsCount, Aggregable,
         AllGroupable, AllComputed, Fellows, SortExprs, ScanTable, JoinRows;
    var rows := Execute(e, t, Naive(p.input), ps).value;
    match p
    case Filter(_, x) =>
      FilterSucceeds(rows, x, ps);
      if FilterRows(rows, x, ps).Ok? {
        FilterShrinks(rows, x, ps);
      }
    case Aggregated(_, groupBy, xs) =>
      AggregableExactly(rows, groupBy, xs, ps);
      if AggregateRows(rows, groupBy, xs, ps).Ok? {
        GroupsShrink(rows, groupBy, xs, ps);
      }
    case Sort(_, orderBy) =>
      SortsExactly(rows, orderBy, ps);
    case Limit(_, x) =>
      LimitsExactly(rows, x, ps);
    case Project(_, xs) =>
      ProjectSucceeds(rows, xs, ps);
      if ProjectRows(rows, xs, ps).Ok? {
        ProjectMeans(rows, xs, ps);
      }
  }

  lemma AggregableExactly(rows: seq<ExecRow>, groupBy: seq<Expr>, xs: seq<Expr>, ps: seq<Value>)
    ensures AggregateRows(rows, groupBy, xs, ps).Ok? <==> Aggregable(rows, groupBy, xs, ps)
  {
    hide AggregateRows, AllGroupable, AllComputed, Fellows;
    AggregationSucceeds(rows, groupBy, xs, ps);
  }

  lemma SortsExactly(rows: seq<ExecRow>, orderBy: seq<Sorting>, ps: seq<Value>)
    ensures SortRows(rows, orderBy, ps).Ok? <==> EveryRow(SortExprs(orderBy), rows, ps)
    ensures SortRows(rows, orderBy, ps).Ok? ==> |SortRows(rows, orderBy, ps).value| == |rows|
  {
    hide KeyRows, EveryRow, SortKeyed, Unkeyed;
    KeyRowsSucceed(rows, orderBy, ps);
    if SortRows(rows, orderBy, ps).Ok? {
      var order := SortArranges(rows, orderBy, ps);
    }
  }

  lemma LimitsExactly(rows: seq<ExecRow>, x: Expr, ps: seq<Value>)
    ensures LimitRows(rows, x, ps).Ok? <==> IsCount(x, ps)
    ensures LimitRows(rows, x, ps).Ok? ==> |LimitRows(rows, x, ps).value| <= |rows|
  {
    hide EvaluateExec;
  }

  lemma {:induction false} JoinBounded(outers: seq<ExecRow>, inners: seq<ExecRow>, on: Expr, ps: seq<Value>,
                                       output: seq<ExecRow>)
    requires |output| <= MAX_INTERMEDIATE_ROWS && JoinNested(outers, inners, on, ps, output).Ok?
    ensures |JoinNested(outers, inners, on, ps, output).value| <= MAX_INTERMEDIATE_ROWS
    decreases |outers|
  {
    hide JoinInner, Accepted, Decides, Combined;
    if outers != [] {
      InnerSucceeds(outers[0], inners, on, ps, output);
      JoinBounded(outers[1..], inners, on, ps, JoinInner(outers[0], inners, on, ps, output).value);
    }
  }

  /** The naive plan returns rows, at most a million, exactly where the query is feasible. */
  lemma {:induction false} NaiveSucceeds(e: Engine, t: Transaction, p: LogicalPlan, ps: seq<Value>)
    ensures Execute(e, t, Naive(p), ps).Ok? <==> Feasible(e, t, p, ps)
    ensures Execute(e, t, Naive(p), ps).Ok? ==> |Execute(e, t, Naive(p), ps).value| <= MAX_INTERMEDIATE_ROWS
    decreases p
  {
    hide FilterRows, JoinNested, AggregateRows, SortRows, LimitRows, ProjectRows, ScanTable, Plain, HashJoin, Decides,
         PairsDecided, AcceptedPairs, EveryRow, IsCount, Aggregable, SortExprs;
    match p {
      case Scan(table) =>
        PlainSize(ScanTable(e, t, table.meta.id));
      case Join(a, b, on) =>
        NaiveSucceeds(e, t, a, ps);
        NaiveSucceeds(e, t, b, ps);
        var outers, inners := Found(e, t, a, ps), Found(e, t, b, ps);
        JoinSucceeds(outers, inners, on, ps, []);
        if JoinNested(outers, inners, on, ps, []).Ok? {
          JoinBounded(outers, inners, on, ps, []);
        }
      case _ =>
        NaiveSucceeds(e, t, p.input, ps);
        if Execute(e, t, Naive(p.input), ps).Ok? {
          OperatorSucceeds(e, t, p, ps);
        }
    }
  }
}
