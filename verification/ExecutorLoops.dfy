/** The executor's loops, and what sorting, grouping and aggregating mean. */
module ExecutorLoops {
  import opened Wrappers
  import opened Ordering
  import opened OrderedKeys
  import opened RowCodec
  import opened Mvcc
  import opened SqlExpr
  import opened QueryPlan
  import opened Executor

  // -------------------------------------------------------------------------- joins

  /** One outer row against a list of inner rows. */
  method MatchInner(outer: ExecRow, inners: seq<ExecRow>, on: Expr, ps: seq<Value>, output: seq<ExecRow>)
    returns (r: ExecResult)
    ensures r == JoinInner(outer, inners, on, ps, output)
  {
    hide PredicateExec;
    var longer, i := output, 0;
    assert inners[0..] == inners;
    while i < |inners|
      invariant 0 <= i <= |inners|
      invariant JoinInner(outer, inners[i..], on, ps, longer) == JoinInner(outer, inners, on, ps, output)
    {
      assert inners[i..][1..] == inners[i + 1..];
      var joined := Combine(outer, inners[i]);
      var holds := PredicateExec(on, joined, ps);
      if holds.Err? {
        return Err(holds.error);
      }
      if holds.value {
        if |longer| + 1 > MAX_INTERMEDIATE_ROWS {
          return Err(TooLarge);
        }
        longer := longer + [joined];
      }
      i := i + 1;
    }
    return Ok(longer);
  }

  method NestedLoopJoin(outers: seq<ExecRow>, inners: seq<ExecRow>, on: Expr, ps: seq<Value>) returns (r: ExecResult)
    ensures r == JoinNested(outers, inners, on, ps, [])
  {
    hide JoinInner;
    var output, i := [], 0;
    assert outers[0..] == outers;
    while i < |outers|
      invariant 0 <= i <= |outers|
      invariant JoinNested(outers[i..], inners, on, ps, output) == JoinNested(outers, inners, on, ps, [])
    {
      assert outers[i..][1..] == outers[i + 1..];
      var longer := MatchInner(outers[i], inners, on, ps, output);
      if longer.Err? {
        return longer;
      }
      output := longer.value;
      i := i + 1;
    }
    return Ok(output);
  }

  type Buckets = map<Bytes, seq<ExecRow>>

  function Found(buckets: Buckets, key: Bytes): seq<ExecRow> {
    if key in buckets then buckets[key] else []
  }

  ghost predicate Holding(buckets: Buckets, inners: seq<ExecRow>, column: nat, rest: seq<ExecRow>) {
    forall key {:trigger Found(buckets, key)} ::
        Found(buckets, key) + Bucket(rest, column, key) == Bucket(inners, column, key)
  }

  /** Inner rows by encoded key, each bucket in scan order. */
  method BuildBuckets(inners: seq<ExecRow>, column: nat) returns (r: Result<Buckets, SqlError>)
    ensures match BucketError(inners, column)
            case Some(e) => r == Err(e)
            case None => r.Ok? && forall key {:trigger Found(r.value, key)} ::
                Found(r.value, key) == Bucket(inners, column, key)
  {
    hide InnerKey;
    var buckets: Buckets, i := map[], 0;
    assert inners[0..] == inners;
    assert Holding(buckets, inners, column, inners) by { NothingHeld(inners, column); }
    while i < |inners|
      invariant 0 <= i <= |inners|
      invariant BucketError(inners[i..], column) == BucketError(inners, column)
      invariant Holding(buckets, inners, column, inners[i..])
    {
      assert inners[i..][1..] == inners[i + 1..];
      var key := InnerKey(inners[i], column);
      if key.Err? {
        return Err(key.error);
      }
      HoldOne(buckets, inners, column, inners[i..]);
      if key.value.Some? {
        buckets := buckets[key.value.value := Found(buckets, key.value.value) + [inners[i]]];
      }
      i := i + 1;
    }
    forall key {:trigger Found(buckets, key)} ensures Found(buckets, key) == Bucket(inners, column, key) {
      assert Found(buckets, key) + [] == Found(buckets, key);
    }
    return Ok(buckets);
  }

  lemma NothingHeld(inners: seq<ExecRow>, column: nat)
    ensures Holding(map[], inners, column, inners)
  {
    forall key ensures Found(map[], key) + Bucket(inners, column, key) == Bucket(inners, column, key) {
      assert [] + Bucket(inners, column, key) == Bucket(inners, column, key);
    }
  }

  lemma HoldOne(buckets: Buckets, inners: seq<ExecRow>, column: nat, rest: seq<ExecRow>)
    requires Holding(buckets, inners, column, rest) && rest != [] && InnerKey(rest[0], column).Ok?
    ensures var k := InnerKey(rest[0], column).value;
            Holding(if k.Some? then buckets[k.value := Found(buckets, k.value) + [rest[0]]] else buckets, inners,
                    column, rest[1..])
  {
    hide InnerKey, Bucket;
    var k := InnerKey(rest[0], column).value;
    var next := if k.Some? then buckets[k.value := Found(buckets, k.value) + [rest[0]]] else buckets;
    forall key {:trigger Found(next, key)} ensures Found(next, key) + Bucket(rest[1..], column, key)
      == Bucket(inners, column, key) {
      var held, tail := Found(buckets, key), Bucket(rest[1..], column, key);
      FirstOfBucket(rest, column, key);
      if k == Some(key) {
        assert held + ([rest[0]] + tail) == (held + [rest[0]]) + tail;
      }
    }
  }

  lemma FirstOfBucket(rest: seq<ExecRow>, column: nat, key: Bytes)
    requires rest != []
    ensures Bucket(rest, column, key)
            == if InnerKey(rest[0], column) == Ok(Some(key)) then [rest[0]] + Bucket(rest[1..], column, key)
              else Bucket(rest[1..], column, key)
  {
    hide InnerKey;
    var tail := Bucket(rest[1..], column, key);
    assert [] + tail == tail;
  }

  method HashJoinLoop(outers: seq<ExecRow>, inners: seq<ExecRow>, outerKey: Expr, column: nat, on: Expr, ps: seq<Value>)
    returns (r: ExecResult)
    ensures r == HashJoin(outers, inners, outerKey, column, on, ps)
  {
    hide JoinInner, EvaluateExec, Bucket, EncodeValue;
    var built := BuildBuckets(inners, column);
    if built.Err? {
      return Err(built.error);
    }
    var buckets, output, i := built.value, [], 0;
    assert outers[0..] == outers;
    while i < |outers|
      invariant 0 <= i <= |outers|
      invariant JoinHashed(outers[i..], inners, outerKey, column, on, ps, output)
                == JoinHashed(outers, inners, outerKey, column, on, ps, [])
    {
      assert outers[i..][1..] == outers[i + 1..];
      var value := EvaluateExec(outerKey, outers[i], ps);
      if value.Err? {
        return Err(value.error);
      }
      if !value.value.IsNull() {
        if !ValueFits(value.value) {
          return Err(TooLarge);
        }
        var key := EncodeValue(value.value);
        var longer := MatchInner(outers[i], Found(buckets, key), on, ps, output);
        if longer.Err? {
          return longer;
        }
        output := longer.value;
      }
      i := i + 1;
    }
    return Ok(output);
  }

  // --------------------------------------------------------------------- aggregates

  method SumLoop(x: Expr, rows: seq<ExecRow>, ps: seq<Value>) returns (r: Result<Option<i64>, SqlError>)
    ensures r == SumFrom(x, rows, ps, None)
  {
    hide EvaluateExec;
    var sum: Option<i64>, i := None, 0;
    assert rows[0..] == rows;
    while i < |rows|
      invariant 0 <= i <= |rows|
      invariant SumFrom(x, rows[i..], ps, sum) == SumFrom(x, rows, ps, None)
    {
      assert rows[i..][1..] == rows[i + 1..];
      var v := EvaluateExec(x, rows[i], ps);
      if v.Err? {
        return Err(v.error);
      }
      if v.value.Int64? {
        var s := CheckedAdd(if sum.Some? then sum.value else 0, v.value.number);
        if s.None? {
          return Err(BadConstraint);
        }
        sum := s;
      } else if !v.value.IsNull() {
        return Err(WrongType);
      }
      i := i + 1;
    }
    return Ok(sum);
  }

  method ExtremeLoop(x: Expr, rows: seq<ExecRow>, ps: seq<Value>, wanted: Order) returns (r: Evaluated)
    ensures r == ExtremeFrom(x, rows, ps, wanted, Null)
  {
    hide EvaluateExec;
    var best: Value, i := Null, 0;
    assert rows[0..] == rows;
    while i < |rows|
      invariant 0 <= i <= |rows|
      invariant ExtremeFrom(x, rows[i..], ps, wanted, best) == ExtremeFrom(x, rows, ps, wanted, Null)
    {
      assert rows[i..][1..] == rows[i + 1..];
      var v := EvaluateExec(x, rows[i], ps);
      if v.Err? {
        return v;
      }
      if !v.value.IsNull() && (best.IsNull() || Replaces(v.value, best, wanted)) {
        best := v.value;
      }
      i := i + 1;
    }
    return Ok(best);
  }

  /** The mathematical sum of the non-null values. */
  function Total(x: Expr, rows: seq<ExecRow>, ps: seq<Value>): int {
    if rows == [] then 0
    else
      var v := EvaluateExec(x, rows[0], ps);
      (if v.Ok? && v.value.Int64? then v.value.number as int else 0) + Total(x, rows[1..], ps)
  }

  predicate AllNull(x: Expr, rows: seq<ExecRow>, ps: seq<Value>) {
    rows == [] || (EvaluateExec(x, rows[0], ps) == Ok(Null) && AllNull(x, rows[1..], ps))
  }

  /** SUM is the sum, without wrap-around; it is null exactly for no values. */
  lemma {:induction false} SumIsTotal(x: Expr, rows: seq<ExecRow>, ps: seq<Value>, sum: Option<i64>)
    requires SumFrom(x, rows, ps, sum).Ok?
    ensures var r := SumFrom(x, rows, ps, sum).value;
            && (r.None? <==> sum.None? && AllNull(x, rows, ps))
            && (r.Some? ==> r.value as int == (if sum.Some? then sum.value as int else 0) + Total(x, rows, ps))
    decreases |rows|
  {
    hide EvaluateExec;
    if rows != [] {
      var v := EvaluateExec(x, rows[0], ps).value;
      var next := if v.Int64? then CheckedAdd(if sum.Some? then sum.value else 0, v.number) else sum;
      SumIsTotal(x, rows[1..], ps, next);
    }
  }

  lemma BeatsTransitive(a: Value, b: Value, c: Value, wanted: Order)
    requires wanted != Equal && Replaces(a, b, wanted) && Replaces(b, c, wanted)
    ensures Replaces(a, c, wanted)
  {
    var p, q, r := Payload(a), Payload(b), Payload(c);
    if (a.Text? || a.Blob?) && wanted == Lesser {
      LessTransitive(p, q, r);
      LessIrreflexive(p);
    } else if a.Text? || a.Blob? {
      LessTotal(p, q);
      LessTotal(q, r);
      LessTransitive(r, q, p);
      LessIrreflexive(p);
      if Less(p, r) {
        LessTransitive(p, r, p);
      }
    }
  }

  function Payload(v: Value): Bytes {
    if v.Text? then v.utf8 else if v.Blob? then v.data else []
  }

  lemma Opposite(a: Value, b: Value, wanted: Order)
    requires wanted != Equal && a.TypeTag() == b.TypeTag() && !a.IsNull() && a != b && !Replaces(a, b, wanted)
    ensures Replaces(b, a, wanted)
  {
    if a.Text? || a.Blob? {
      var p, q := Payload(a), Payload(b);
      LessTotal(p, q);
      if Less(p, q) {
        Asymmetric(p, q);
      }
    }
  }

  /** What does not beat the best does not beat what the best does not beat. */
  lemma NotBeaten(v: Value, best: Value, r: Value, wanted: Order)
    requires wanted != Equal && best.TypeTag() == v.TypeTag() && !Replaces(best, r, wanted)
             && !Replaces(v, best, wanted)
    ensures !Replaces(v, r, wanted)
  {
    if Replaces(v, r, wanted) && v != best {
      Opposite(v, best, wanted);
      BeatsTransitive(best, v, r, wanted);
    }
  }

  /** The expression has one type on these rows, where it is not null. */
  predicate OneType(x: Expr, rows: seq<ExecRow>, ps: seq<Value>, tag: nat) {
    rows == []
    || (var v := EvaluateExec(x, rows[0], ps); (v.Ok? && !v.value.IsNull() ==> v.value.TypeTag() == tag)
                                               && OneType(x, rows[1..], ps, tag))
  }

  predicate Occurs(x: Expr, rows: seq<ExecRow>, ps: seq<Value>, r: Value) {
    rows != [] && (EvaluateExec(x, rows[0], ps) == Ok(r) || Occurs(x, rows[1..], ps, r))
  }

  predicate Unbeaten(x: Expr, rows: seq<ExecRow>, ps: seq<Value>, r: Value, wanted: Order) {
    rows == []
    || (var v := EvaluateExec(x, rows[0], ps); v.Ok? && !Replaces(v.value, r, wanted)
                                               && Unbeaten(x, rows[1..], ps, r, wanted))
  }

  /** No value of the rows beats MIN or MAX, and it is one of them; it is null exactly for
      no values. */
  lemma {:induction false} ExtremeIsExtreme(x: Expr, rows: seq<ExecRow>, ps: seq<Value>, wanted: Order, best: Value,
                                            tag: nat)
    requires wanted != Equal && ExtremeFrom(x, rows, ps, wanted, best).Ok?
    requires OneType(x, rows, ps, tag) && (best.IsNull() || best.TypeTag() == tag)
    ensures var r := ExtremeFrom(x, rows, ps, wanted, best).value;
            && (r == best || Occurs(x, rows, ps, r)) && !Replaces(best, r, wanted) && Unbeaten(x, rows, ps, r, wanted)
            && (r.IsNull() <==> best.IsNull() && AllNull(x, rows, ps))
    decreases |rows|
  {
    hide EvaluateExec, Replaces;
    NoneBeatsItself(best, wanted);
    if rows != [] {
      var v, rest := EvaluateExec(x, rows[0], ps).value, rows[1..];
      var next := if !v.IsNull() && (best.IsNull() || Replaces(v, best, wanted)) then v else best;
      ExtremeIsExtreme(x, rest, ps, wanted, next, tag);
      var r := ExtremeFrom(x, rest, ps, wanted, next).value;
      NullBeatsNothing(v, r, wanted);
      NullBeatsNothing(best, r, wanted);
      if next == best && !v.IsNull() {
        NotBeaten(v, best, r, wanted);
      }
      if next == v && !best.IsNull() && Replaces(best, r, wanted) && Replaces(v, best, wanted) {
        BeatsTransitive(v, best, r, wanted);
      }
    }
  }

  lemma NullBeatsNothing(v: Value, r: Value, wanted: Order)
    ensures v.IsNull() ==> !Replaces(v, r, wanted)
  {
  }

  lemma NoneBeatsItself(v: Value, wanted: Order)
    requires wanted != Equal
    ensures !Replaces(v, v, wanted)
  {
  }

  // ------------------------------------------------------------------------- groups

  type Groups = map<Bytes, seq<ExecRow>>

  /** What the loop has filed so far, over the rows still to come. */
  ghost predicate Filed(groups: Groups, rows: seq<ExecRow>, keys: seq<Bytes>, i: nat)
    requires |rows| == |keys| && i <= |rows|
  {
    && groups.Keys == Members(keys[..i])
    && forall key {:trigger Found(groups, key)} ::
         Found(groups, key) + RowsKeyed(rows[i..], keys[i..], key) == RowsKeyed(rows, keys, key)
  }

  /** Rows filed under their encoded group values. */
  method GroupRows(rows: seq<ExecRow>, groupBy: seq<Expr>, ps: seq<Value>) returns (r: Result<Groups, SqlError>)
    ensures match GroupKeys(groupBy, rows, ps)
            case Err(e) => r == Err(e)
            case Ok(keys) =>
              && |keys| == |rows| && r.Ok? && r.value.Keys == Members(keys)
              && forall key {:trigger Found(r.value, key)} :: Found(r.value, key) == RowsKeyed(rows, keys, key)
  {
    hide GroupKey;
    ghost var all := GroupKeys(groupBy, rows, ps);
    OneKeyEach(groupBy, rows, ps);
    ghost var keys := if all.Ok? then all.value else [];
    var groups: Groups, i := map[], 0;
    assert rows[0..] == rows && keys[0..] == keys;
    assert all.Ok? ==> Filed(groups, rows, keys, 0) by {
      if all.Ok? {
        NothingFiled(rows, keys);
      }
    }
    while i < |rows|
      invariant 0 <= i <= |rows|
      invariant all.Ok? ==> |keys| == |rows| && GroupKeys(groupBy, rows[i..], ps) == Ok(keys[i..])
                            && Filed(groups, rows, keys, i)
      invariant all.Err? ==> GroupKeys(groupBy, rows[i..], ps) == all
    {
      assert rows[i..][1..] == rows[i + 1..];
      var key := GroupKey(groupBy, rows[i], ps);
      if key.Err? {
        return Err(key.error);
      }
      if all.Ok? {
        OneKeyEach(groupBy, rows[i + 1..], ps);
        assert keys[i..][0] == key.value && keys[i..][1..] == keys[i + 1..];
        FileOne(groups, rows, keys, i);
      }
      groups := groups[key.value := Found(groups, key.value) + [rows[i]]];
      i := i + 1;
    }
    if all.Ok? {
      forall key {:trigger Found(groups, key)} ensures Found(groups, key) == RowsKeyed(rows, keys, key) {
        assert Found(groups, key) + [] == Found(groups, key);
      }
      assert keys[..i] == keys;
    }
    return Ok(groups);
  }

  lemma NothingFiled(rows: seq<ExecRow>, keys: seq<Bytes>)
    requires |rows| == |keys|
    ensures Filed(map[], rows, keys, 0)
  {
    assert rows[0..] == rows && keys[0..] == keys && keys[..0] == [];
    forall key ensures Found(map[], key) + RowsKeyed(rows, keys, key) == RowsKeyed(rows, keys, key) {
      assert [] + RowsKeyed(rows, keys, key) == RowsKeyed(rows, keys, key);
    }
  }

  lemma OneMoreMember(keys: seq<Bytes>, i: nat)
    requires i < |keys|
    ensures Members(keys[..i + 1]) == Members(keys[..i]) + {keys[i]}
  {
    assert keys[..i + 1] == keys[..i] + [keys[i]];
  }

  lemma FileOne(groups: Groups, rows: seq<ExecRow>, keys: seq<Bytes>, i: nat)
    requires |rows| == |keys| && i < |rows| && Filed(groups, rows, keys, i)
    ensures Filed(groups[keys[i] := Found(groups, keys[i]) + [rows[i]]], rows, keys, i + 1)
  {
    hide RowsKeyed, Members;
    var next := groups[keys[i] := Found(groups, keys[i]) + [rows[i]]];
    OneMoreMember(keys, i);
    forall key {:trigger Found(next, key)} ensures Found(next, key) + RowsKeyed(rows[i + 1..], keys[i + 1..], key)
      == RowsKeyed(rows, keys, key) {
      var held, tail := Found(groups, key), RowsKeyed(rows[i + 1..], keys[i + 1..], key);
      FirstKeyed(rows, keys, i, key);
      if keys[i] == key {
        assert held + ([rows[i]] + tail) == (held + [rows[i]]) + tail;
      }
    }
  }

  lemma FirstKeyed(rows: seq<ExecRow>, keys: seq<Bytes>, i: nat, key: Bytes)
    requires |rows| == |keys| && i < |rows|
    ensures var tail := RowsKeyed(rows[i + 1..], keys[i + 1..], key);
            RowsKeyed(rows[i..], keys[i..], key) == if keys[i] == key then [rows[i]] + tail else tail
  {
    assert rows[i..][1..] == rows[i + 1..] && keys[i..][1..] == keys[i + 1..];
    var tail := RowsKeyed(rows[i + 1..], keys[i + 1..], key);
    assert [] + tail == tail;
  }

  /** Each named group's aggregates. */
  method AggregateNamed(names: seq<Bytes>, groups: Groups, aggregates: seq<Expr>, ps: seq<Value>,
                        ghost rows: seq<ExecRow>, ghost keys: seq<Bytes>)
    returns (r: ExecResult)
    requires |rows| == |keys| && forall key {:trigger Found(groups, key)} ::
               Found(groups, key) == RowsKeyed(rows, keys, key)
    ensures r == AggregateGroups(names, rows, keys, aggregates, ps)
  {
    hide AggregateGroup, RowsKeyed, Found;
    var output, i := [], 0;
    assert names[0..] == names;
    ghost var whole := AggregateGroups(names, rows, keys, aggregates, ps);
    assert whole.Ok? ==> output + whole.value == whole.value;
    while i < |names|
      invariant 0 <= i <= |names|
      invariant whole == match AggregateGroups(names[i..], rows, keys, aggregates, ps)
                         case Err(e) => Err(e)
                         case Ok(rest) => Ok(output + rest)
    {
      assert names[i..][1..] == names[i + 1..];
      var one := AggregateGroup(Found(groups, names[i]), aggregates, ps);
      if one.Err? {
        return Err(one.error);
      }
      Regroup(output, one.value, AggregateGroups(names[i + 1..], rows, keys, aggregates, ps));
      output := output + [one.value];
      i := i + 1;
    }
    assert output + [] == output;
    return Ok(output);
  }

  /** Groups in the order of the encoded keys. */
  method AggregateLoop(rows: seq<ExecRow>, groupBy: seq<Expr>, aggregates: seq<Expr>, ps: seq<Value>)
    returns (r: ExecResult)
    ensures r == AggregateRows(rows, groupBy, aggregates, ps)
  {
    hide GroupKeys, AggregateGroups, RowsKeyed, Found;
    var filed := GroupRows(rows, groupBy, ps);
    if filed.Err? {
      return Err(filed.error);
    }
    var groups := filed.value;
    ghost var keys := GroupKeys(groupBy, rows, ps).value;
    var names := if groups.Keys == {} && groupBy == [] then [[]] else Ordering.Sorted(groups.Keys);
    assert names == GroupNames(groupBy, keys) by { NoMembers(keys); }
    r := AggregateNamed(names, groups, aggregates, ps, rows, keys);
  }

  lemma Regroup(output: seq<ExecRow>, one: ExecRow, rest: ExecResult)
    ensures rest.Ok? ==> output + ([one] + rest.value) == (output + [one]) + rest.value
  {
  }

  lemma NoMembers(keys: seq<Bytes>)
    ensures Members(keys) == {} <==> keys == []
  {
    if keys != [] {
      assert keys[0] in Members(keys);
    }
  }

  function GroupSizes(names: seq<Bytes>, rows: seq<ExecRow>, keys: seq<Bytes>): nat
    requires |rows| == |keys|
  {
    if names == [] then 0 else |RowsKeyed(rows, keys, names[0])| + GroupSizes(names[1..], rows, keys)
  }

  predicate Distinct(names: seq<Bytes>) {
    forall i, j :: 0 <= i < j < |names| ==> names[i] != names[j]
  }

  lemma {:induction false} OneMoreRow(names: seq<Bytes>, rows: seq<ExecRow>, keys: seq<Bytes>)
    requires |rows| == |keys| && rows != [] && Distinct(names)
    ensures GroupSizes(names, rows, keys) == GroupSizes(names, rows[1..], keys[1..]) + if keys[0] in names then 1 else 0
    decreases |names|
  {
    if names != [] {
      var rest := names[1..];
      assert forall i :: 0 <= i < |rest| ==> rest[i] == names[i + 1];
      OneMoreRow(rest, rows, keys);
      assert keys[0] in names <==> keys[0] == names[0] || keys[0] in rest;
      assert keys[0] == names[0] ==> keys[0] !in rest;
    }
  }

  lemma {:induction false} SizesAdd(names: seq<Bytes>, rows: seq<ExecRow>, keys: seq<Bytes>)
    requires |rows| == |keys| && Distinct(names) && forall k :: k in keys ==> k in names
    ensures GroupSizes(names, rows, keys) == |rows|
    decreases |rows|
  {
    if rows == [] {
      NoSizes(names);
    } else {
      assert keys[0] in keys && forall k :: k in keys[1..] ==> k in keys;
      OneMoreRow(names, rows, keys);
      SizesAdd(names, rows[1..], keys[1..]);
    }
  }

  lemma {:induction false} NoSizes(names: seq<Bytes>)
    ensures GroupSizes(names, [], []) == 0
    decreases |names|
  {
    if names != [] {
      NoSizes(names[1..]);
    }
  }

  /** Grouping loses and repeats no row: group sizes add up to the input. */
  lemma GroupsPartition(rows: seq<ExecRow>, groupBy: seq<Expr>, ps: seq<Value>)
    requires GroupKeys(groupBy, rows, ps).Ok?
    ensures var keys := GroupKeys(groupBy, rows, ps).value;
            |keys| == |rows| && GroupSizes(GroupNames(groupBy, keys), rows, keys) == |rows|
  {
    OneKeyEach(groupBy, rows, ps);
    var keys := GroupKeys(groupBy, rows, ps).value;
    var names := GroupNames(groupBy, keys);
    if keys == [] && groupBy == [] {
      NoSizes(names);
    } else {
      forall i, j | 0 <= i < j < |names| ensures names[i] != names[j] {
        LessIrreflexive(names[i]);
      }
      assert forall k :: k in keys ==> k in Members(keys);
      SizesAdd(names, rows, keys);
    }
  }

  /** Two rows share a group exactly when their group values are equal. */
  lemma SameGroup(groupBy: seq<Expr>, a: ExecRow, b: ExecRow, ps: seq<Value>)
    requires GroupKey(groupBy, a, ps).Ok? && GroupKey(groupBy, b, ps).Ok?
    ensures GroupKey(groupBy, a, ps) == GroupKey(groupBy, b, ps)
            <==> EvaluateAll(groupBy, a, ps) == EvaluateAll(groupBy, b, ps)
  {
    hide EvaluateAll, EncodeRow, DecodeRow;
    var v, w := EvaluateAll(groupBy, a, ps).value, EvaluateAll(groupBy, b, ps).value;
    FitsWhenEncoded(v);
    FitsWhenEncoded(w);
    RowRoundTrip(v);
    RowRoundTrip(w);
  }

  lemma FitsWhenEncoded(row: Row)
    requires EncodeRow(row).Some?
    ensures RowFits(row)
  {
  }

  // ------------------------------------------------------------------------ sorting

  lemma SortValuesFlip(a: Value, b: Value)
    ensures CompareSortValues(a, b) == Flip(CompareSortValues(b, a))
  {
    if (a.Text? && b.Text?) || (a.Blob? && b.Blob?) {
      var p, q := Payload(a), Payload(b);
      LessTotal(p, q);
      if Less(p, q) {
        Asymmetric(p, q);
      }
      if Less(q, p) {
        Asymmetric(q, p);
      }
    }
  }

  lemma {:induction false} KeysFlip(a: seq<Value>, b: seq<Value>, orderBy: seq<Sorting>)
    ensures CompareKeys(a, b, orderBy) == Flip(CompareKeys(b, a, orderBy))
    decreases |orderBy|
  {
    if a != [] && b != [] && orderBy != [] {
      SortValuesFlip(a[0], b[0]);
      KeysFlip(a[1..], b[1..], orderBy[1..]);
    }
  }

  /** No row is smaller than the one before it. */
  predicate InOrder(rows: seq<Keyed>, orderBy: seq<Sorting>) {
    forall i :: 0 < i < |rows| ==> CompareKeys(rows[i].1, rows[i - 1].1, orderBy) != Lesser
  }

  lemma {:induction false} InsertKeepsOrder(x: Keyed, sorted: seq<Keyed>, orderBy: seq<Sorting>)
    requires InOrder(sorted, orderBy)
    ensures var r := InsertKeyed(x, sorted, orderBy);
            && InOrder(r, orderBy) && multiset(r) == multiset(sorted) + multiset{x}
            && (r[0] == x || (sorted != [] && r[0] == sorted[0]))
    decreases |sorted|
  {
    hide CompareKeys;
    var r := InsertKeyed(x, sorted, orderBy);
    if sorted == [] || CompareKeys(sorted[0].1, x.1, orderBy) != Lesser {
      assert forall i :: 0 < i < |r| ==> r[i] == sorted[i - 1];
    } else {
      var rest := sorted[1..];
      assert forall i :: 0 <= i < |rest| ==> rest[i] == sorted[i + 1];
      InsertKeepsOrder(x, rest, orderBy);
      var tail := InsertKeyed(x, rest, orderBy);
      KeysFlip(x.1, sorted[0].1, orderBy);
      assert r == [sorted[0]] + tail && sorted == [sorted[0]] + rest;
      forall i | 0 < i < |r| ensures CompareKeys(r[i].1, r[i - 1].1, orderBy) != Lesser {
        assert r[i] == tail[i - 1] && (i > 1 ==> r[i - 1] == tail[i - 2]);
      }
    }
  }

  /** Sorting puts rows in order and keeps every one of them. */
  lemma {:induction false} SortIsSorted(rows: seq<Keyed>, orderBy: seq<Sorting>)
    ensures InOrder(SortKeyed(rows, orderBy), orderBy) && multiset(SortKeyed(rows, orderBy)) == multiset(rows)
    decreases |rows|
  {
    if rows != [] {
      SortIsSorted(rows[1..], orderBy);
      InsertKeepsOrder(rows[0], SortKeyed(rows[1..], orderBy), orderBy);
      assert rows == [rows[0]] + rows[1..];
    }
  }

  /** Where a row is inserted: after the entries that are smaller than it. */
  function Place(x: Keyed, sorted: seq<Keyed>, orderBy: seq<Sorting>): nat {
    if sorted == [] || CompareKeys(sorted[0].1, x.1, orderBy) != Lesser then 0 else 1 + Place(x, sorted[1..], orderBy)
  }

  lemma {:induction false} InsertPlaces(x: Keyed, sorted: seq<Keyed>, orderBy: seq<Sorting>)
    ensures var p := Place(x, sorted, orderBy);
            && p <= |sorted| && InsertKeyed(x, sorted, orderBy) == sorted[..p] + [x] + sorted[p..]
            && forall i :: 0 <= i < p ==> CompareKeys(sorted[i].1, x.1, orderBy) == Lesser
    decreases |sorted|
  {
    hide CompareKeys;
    if sorted != [] && CompareKeys(sorted[0].1, x.1, orderBy) == Lesser {
      var rest := sorted[1..];
      InsertPlaces(x, rest, orderBy);
      var p := Place(x, rest, orderBy);
      assert sorted[..p + 1] == [sorted[0]] + rest[..p] && sorted[p + 1..] == rest[p..];
      forall i | 0 <= i < p + 1 ensures CompareKeys(sorted[i].1, x.1, orderBy) == Lesser {
        assert i > 0 ==> sorted[i] == rest[i - 1];
      }
    } else {
      assert sorted[..0] == [] && sorted[0..] == sorted;
    }
  }

  /** Every position once. */
  predicate Permutes(order: seq<nat>, n: nat) {
    && |order| == n && (forall i :: 0 <= i < n ==> order[i] < n)
    && forall i, j :: 0 <= i < j < n ==> order[i] != order[j]
  }

  /** The output position by position: where each row came from, with equal rows in the
      order they came in. */
  predicate Stably(rows: seq<Keyed>, sorted: seq<Keyed>, orderBy: seq<Sorting>, order: seq<nat>) {
    && |sorted| == |rows| && Permutes(order, |rows|)
    && (forall i :: 0 <= i < |rows| ==> sorted[i] == rows[order[i]])
    && forall i, j :: 0 <= i < j < |rows| && CompareKeys(sorted[i].1, sorted[j].1, orderBy) == Equal ==>
                        order[i] < order[j]
  }

  function Shifted(order: seq<nat>): seq<nat> {
    seq(|order|, i requires 0 <= i < |order| => order[i] + 1)
  }

  /** Sorting is stable. */
  lemma {:induction false} SortIsStable(rows: seq<Keyed>, orderBy: seq<Sorting>) returns (order: seq<nat>)
    ensures Stably(rows, SortKeyed(rows, orderBy), orderBy, order)
    decreases |rows|
  {
    hide CompareKeys, InsertKeyed;
    if rows == [] {
      order := [];
    } else {
      var rest := rows[1..];
      var before := SortIsStable(rest, orderBy);
      var sorted := SortKeyed(rest, orderBy);
      InsertPlaces(rows[0], sorted, orderBy);
      var p := Place(rows[0], sorted, orderBy);
      PermutesBound(before, |sorted|);
      order := Inserted(Shifted(before), p, 0);
      InsertedStably(rows, sorted, orderBy, before, p);
    }
  }

  function Inserted<T>(xs: seq<T>, p: nat, x: T): seq<T>
    requires p <= |xs|
  {
    xs[..p] + [x] + xs[p..]
  }

  function Back(i: nat, p: nat): nat {
    if i <= p then i else i - 1
  }

  lemma InsertedAt<T>(xs: seq<T>, p: nat, x: T)
    requires p <= |xs|
    ensures |Inserted(xs, p, x)| == |xs| + 1
    ensures forall i {:trigger Inserted(xs, p, x)[i]} ::
              0 <= i <= |xs| ==> Inserted(xs, p, x)[i] == if i == p then x else xs[Back(i, p)]
  {
  }

  lemma InsertedPermutes(before: seq<nat>, p: nat)
    requires Permutes(before, |before|) && p <= |before|
    ensures Permutes(Inserted(Shifted(before), p, 0), |before| + 1)
  {
    hide Inserted;
    InsertedAt(Shifted(before), p, 0);
    var order := Inserted(Shifted(before), p, 0);
    forall i, j | 0 <= i < j < |order| ensures order[i] != order[j] {
      assert i != p && j != p ==> Back(i, p) < Back(j, p);
    }
  }

  lemma InsertedStably(rows: seq<Keyed>, sorted: seq<Keyed>, orderBy: seq<Sorting>, before: seq<nat>, p: nat)
    requires rows != [] && Stably(rows[1..], sorted, orderBy, before) && p <= |sorted|
    requires forall i :: 0 <= i < p ==> CompareKeys(sorted[i].1, rows[0].1, orderBy) == Lesser
    ensures Stably(rows, Inserted(sorted, p, rows[0]), orderBy, Inserted(Shifted(before), p, 0))
  {
    hide CompareKeys, Inserted, Permutes;
    assert |before| == |sorted| by { PermutesBound(before, |sorted|); }
    InsertedAt(sorted, p, rows[0]);
    InsertedAt(Shifted(before), p, 0);
    InsertedPermutes(before, p);
    var s, order, rest := Inserted(sorted, p, rows[0]), Inserted(Shifted(before), p, 0), rows[1..];
    assert forall i :: 0 <= i < |order| ==> order[i] < |rows| by { PermutesBound(order, |rows|); }
    assert forall i :: 0 <= i < |before| ==> before[i] < |rest| by { PermutesBound(before, |rest|); }
    forall i | 0 <= i < |s| ensures s[i] == rows[order[i]] {
      if i != p {
        assert sorted[Back(i, p)] == rest[before[Back(i, p)]] == rows[before[Back(i, p)] + 1];
      }
    }
    forall i, j | 0 <= i < j < |s| && CompareKeys(s[i].1, s[j].1, orderBy) == Equal ensures order[i] < order[j] {
      if i != p && j != p {
        assert Back(i, p) < Back(j, p);
      }
    }
  }

  lemma PermutesBound(order: seq<nat>, n: nat)
    requires Permutes(order, n)
    ensures |order| == n && forall i :: 0 <= i < n ==> order[i] < n
  {
  }

  // -------------------------------------------------------------- what operators return

  /** A filter keeps exactly the rows its predicate holds on, as often as they occur. */
  lemma {:induction false} FilterExact(rows: seq<ExecRow>, x: Expr, ps: seq<Value>, r: ExecRow)
    requires FilterRows(rows, x, ps).Ok?
    ensures multiset(FilterRows(rows, x, ps).value)[r] == if PredicateExec(x, r, ps)
            == Ok(true) then multiset(rows)[r] else 0
    decreases |rows|
  {
    hide PredicateExec;
    if rows != [] {
      var rest := FilterRows(rows[1..], x, ps).value;
      FilterExact(rows[1..], x, ps, r);
      assert rows == [rows[0]] + rows[1..];
      assert multiset(rows) == multiset{rows[0]} + multiset(rows[1..]);
      if PredicateExec(x, rows[0], ps) == Ok(true) {
        assert multiset([rows[0]] + rest) == multiset{rows[0]} + multiset(rest);
      } else {
        assert [] + rest == rest;
      }
    }
  }

  /** A row of the join: a pair the condition holds on. */
  predicate Pairs(a: ExecRow, b: ExecRow, on: Expr, ps: seq<Value>, r: ExecRow) {
    r == Combine(a, b) && PredicateExec(on, r, ps) == Ok(true)
  }

  /** How often one row pairs with the rows of a list to give `r`. */
  function Partners(outer: ExecRow, inners: seq<ExecRow>, on: Expr, ps: seq<Value>, r: ExecRow): nat {
    if inners == [] then 0
    else (if Pairs(outer, inners[0], on, ps, r) then 1 else 0) + Partners(outer, inners[1..], on, ps, r)
  }

  /** How many pairs of the two lists give `r`. */
  function PairCount(outers: seq<ExecRow>, inners: seq<ExecRow>, on: Expr, ps: seq<Value>, r: ExecRow): nat {
    if outers == [] then 0 else Partners(outers[0], inners, on, ps, r) + PairCount(outers[1..], inners, on, ps, r)
  }

  lemma {:induction false} InnerExact(outer: ExecRow, inners: seq<ExecRow>, on: Expr, ps: seq<Value>,
                                      output: seq<ExecRow>, r: ExecRow)
    requires JoinInner(outer, inners, on, ps, output).Ok?
    ensures multiset(JoinInner(outer, inners, on, ps, output).value)[r]
            == multiset(output)[r] + Partners(outer, inners, on, ps, r)
    decreases |inners|
  {
    hide PredicateExec;
    if inners != [] {
      var joined := Combine(outer, inners[0]);
      var holds := PredicateExec(on, joined, ps) == Ok(true);
      InnerExact(outer, inners[1..], on, ps, if holds then output + [joined] else output, r);
      assert multiset(output + [joined]) == multiset(output) + multiset{joined};
      assert Pairs(outer, inners[0], on, ps, r) <==> holds && r == joined;
    }
  }

  /** A join returns a row as often as there are pairs that give it. */
  lemma {:induction false} JoinExact(outers: seq<ExecRow>, inners: seq<ExecRow>, on: Expr, ps: seq<Value>,
                                     output: seq<ExecRow>, r: ExecRow)
    requires JoinNested(outers, inners, on, ps, output).Ok?
    ensures multiset(JoinNested(outers, inners, on, ps, output).value)[r]
            == multiset(output)[r] + PairCount(outers, inners, on, ps, r)
    decreases |outers|
  {
    hide Pairs, JoinInner;
    if outers != [] {
      InnerExact(outers[0], inners, on, ps, output, r);
      JoinExact(outers[1..], inners, on, ps, JoinInner(outers[0], inners, on, ps, output).value, r);
    }
  }

  lemma {:induction false} SameReflexive(x: Expr)
    ensures SameExpression(x, x)
  {
    match x
    case Unary(_, a) => SameReflexive(a);
    case NullTest(a, _) => SameReflexive(a);
    case Binary(a, _, b) =>
      SameReflexive(a);
      SameReflexive(b);
    case Aggregate(_, Some(a)) => SameReflexive(a);
    case _ =>
  }

  lemma {:induction false} ComputedFound(xs: seq<Expr>, rows: seq<ExecRow>, ps: seq<Value>, i: nat)
    requires ComputeAll(xs, rows, ps).Ok? && i < |xs| && forall j :: 0 <= j < i ==> !SameExpression(xs[j], xs[i])
    ensures Computed(ComputeAll(xs, rows, ps).value, xs[i]) == ComputeAggregate(xs[i], rows, ps)
    decreases |xs|
  {
    hide ComputeAggregate, SameExpression;
    var rest := ComputeAll(xs[1..], rows, ps).value;
    var all := ComputeAll(xs, rows, ps).value;
    assert all[1..] == rest;
    if i == 0 {
      SameReflexive(xs[0]);
    } else {
      assert !SameExpression(xs[0], xs[i]) && forall j :: 0 <= j < i - 1 ==> xs[1..][j] == xs[j + 1];
      ComputedFound(xs[1..], rows, ps, i - 1);
    }
  }

  /** Above a group, an aggregate expression has the value computed for the group. */
  lemma GroupValueFound(rows: seq<ExecRow>, xs: seq<Expr>, ps: seq<Value>, i: nat)
    requires AggregateGroup(rows, xs, ps).Ok? && i < |xs| && xs[i].Aggregate?
    requires forall j :: 0 <= j < i ==> !SameExpression(xs[j], xs[i])
    ensures EvaluateExec(xs[i], AggregateGroup(rows, xs, ps).value, ps) == ComputeAggregate(xs[i], rows, ps)
  {
    ComputedFound(xs, rows, ps, i);
  }
}
