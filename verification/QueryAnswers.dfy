/** The answer to a query, operator by operator, in terms of what its expressions mean. */
module QueryAnswers {
  import opened Wrappers
  import opened Ordering
  import opened OrderedKeys
  import opened RowCodec
  import opened Mvcc
  import opened SqlExpr
  import opened QueryPlan
  import opened Executor
  import opened ExecutorLoops
  import opened QueryMeaning

  predicate Accepts(x: Expr, r: ExecRow, ps: seq<Value>) {
    Meaning(x, r, ps) == Bool(true)
  }

  lemma PredicateMeans(x: Expr, r: ExecRow, ps: seq<Value>)
    requires PredicateExec(x, r, ps).Ok?
    ensures PredicateExec(x, r, ps).value <==> Accepts(x, r, ps)
  {
    hide EvaluateExec, Meaning;
    EvaluateMeans(x, r, ps);
  }

  lemma {:induction false} EvaluateAllMeans(xs: seq<Expr>, r: ExecRow, ps: seq<Value>)
    requires EvaluateAll(xs, r, ps).Ok?
    ensures var vs := EvaluateAll(xs, r, ps).value;
            |vs| == |xs| && forall k :: 0 <= k < |xs| ==> vs[k] == Meaning(xs[k], r, ps)
    decreases |xs|
  {
    hide EvaluateExec, Meaning;
    if xs != [] {
      EvaluateMeans(xs[0], r, ps);
      EvaluateAllMeans(xs[1..], r, ps);
    }
  }

  // --------------------------------------------------------------------- selection

  predicate Increasing(order: seq<nat>, n: nat) {
    && (forall i :: 0 <= i < |order| ==> order[i] < n)
    && forall i, j :: 0 <= i < j < |order| ==> order[i] < order[j]
  }

  /** The rows at these positions, in order, are those the condition is true of. */
  predicate Picks(rows: seq<ExecRow>, x: Expr, ps: seq<Value>, kept: seq<ExecRow>, order: seq<nat>) {
    && |kept| == |order| && Increasing(order, |rows|)
    && (forall i :: 0 <= i < |order| ==> kept[i] == rows[order[i]])
    && forall i :: 0 <= i < |rows| ==> (i in order <==> Accepts(x, rows[i], ps))
  }

  /** Positions in a list from those in its tail. */
  function Prepended(first: bool, tail: seq<nat>): seq<nat> {
    (if first then [0] else []) + Shifted(tail)
  }

  lemma PrependedAt(first: bool, tail: seq<nat>, n: nat)
    requires Increasing(tail, n)
    ensures var order, d := Prepended(first, tail), if first then 1 else 0;
            && |order| == d + |tail| && Increasing(order, n + 1) && (first ==> order[0] == 0)
            && forall k :: d <= k < |order| ==> order[k] == tail[k - d] + 1
  {
  }

  lemma PrependedHolds(first: bool, tail: seq<nat>, n: nat, i: nat)
    requires Increasing(tail, n)
    ensures i in Prepended(first, tail) <==> if i == 0 then first else i - 1 in tail
  {
    hide Prepended, Increasing;
    PrependedAt(first, tail, n);
    var order, d := Prepended(first, tail), if first then 1 else 0;
    if i in order {
      var k :| 0 <= k < |order| && order[k] == i;
      assert k >= d ==> tail[k - d] == i - 1;
    }
    if i > 0 && i - 1 in tail {
      var k :| 0 <= k < |tail| && tail[k] == i - 1;
      assert order[d + k] == i;
    }
  }

  lemma PickFirst(rows: seq<ExecRow>, x: Expr, ps: seq<Value>, rest: seq<ExecRow>, tail: seq<nat>)
    requires rows != [] && Picks(rows[1..], x, ps, rest, tail)
    ensures var keep := Accepts(x, rows[0], ps);
            Picks(rows, x, ps, (if keep then [rows[0]] else []) + rest, Prepended(keep, tail))
  {
    hide Accepts, Prepended;
    var keep, later := Accepts(x, rows[0], ps), rows[1..];
    var kept, order := (if keep then [rows[0]] else []) + rest, Prepended(keep, tail);
    PrependedAt(keep, tail, |rows| - 1);
    assert forall i :: 0 <= i < |later| ==> later[i] == rows[i + 1];
    forall i | 0 <= i < |order| ensures kept[i] == rows[order[i]] {
      if !keep {
        assert kept[i] == rest[i] == later[tail[i]];
      } else if i > 0 {
        assert kept[i] == rest[i - 1] == later[tail[i - 1]];
      }
    }
    forall i | 0 <= i < |rows| ensures i in Prepended(keep, tail) <==> Accepts(x, rows[i], ps) {
      PrependedHolds(keep, tail, |rows| - 1, i);
      assert i > 0 ==> rows[i] == rows[1..][i - 1];
    }
  }

  /** A filter returns exactly the rows its condition is true of, in their order. */
  lemma {:induction false} FilterSelects(rows: seq<ExecRow>, x: Expr, ps: seq<Value>) returns (order: seq<nat>)
    requires FilterRows(rows, x, ps).Ok?
    ensures Picks(rows, x, ps, FilterRows(rows, x, ps).value, order)
    decreases |rows|
  {
    hide PredicateExec, Accepts;
    if rows == [] {
      order := [];
    } else {
      PredicateMeans(x, rows[0], ps);
      var tail := FilterSelects(rows[1..], x, ps);
      PickFirst(rows, x, ps, FilterRows(rows[1..], x, ps).value, tail);
      order := Prepended(Accepts(x, rows[0], ps), tail);
    }
  }

  // -------------------------------------------------------------------------- joins

  predicate Sooner(p: (nat, nat), q: (nat, nat)) {
    p.0 < q.0 || (p.0 == q.0 && p.1 < q.1)
  }

  predicate PairsWithin(order: seq<(nat, nat)>, m: nat, n: nat) {
    && (forall i {:trigger order[i]} :: 0 <= i < |order| ==> order[i].0 < m && order[i].1 < n)
    && forall i, j :: 0 <= i < j < |order| ==> Sooner(order[i], order[j])
  }

  /** These pairs, outer rows first, are those the condition is true of. */
  predicate Matches(outers: seq<ExecRow>, inners: seq<ExecRow>, on: Expr, ps: seq<Value>, joined: seq<ExecRow>,
                    order: seq<(nat, nat)>) {
    && |joined| == |order| && PairsWithin(order, |outers|, |inners|)
    && (forall i {:trigger joined[i]} :: 0 <= i < |order| ==>
          joined[i] == Combine(outers[order[i].0], inners[order[i].1]))
    && forall a, b {:trigger (a, b) in order} :: 0 <= a < |outers| && 0 <= b < |inners| ==>
         ((a, b) in order <==> Accepts(on, Combine(outers[a], inners[b]), ps))
  }

  /** The partners of one outer row are a selection of the inner ones. */
  lemma {:induction false} InnerSelects(outer: ExecRow, inners: seq<ExecRow>, on: Expr, ps: seq<Value>,
                                        output: seq<ExecRow>) returns (more: seq<ExecRow>, order: seq<nat>)
    requires JoinInner(outer, inners, on, ps, output).Ok?
    ensures JoinInner(outer, inners, on, ps, output).value == output + more
    ensures Picks(Combined(outer, inners), on, ps, more, order)
    decreases |inners|
  {
    hide PredicateExec, Accepts, Picks, Prepended, Combined, Combine;
    CombinedFirst(outer, inners);
    if inners == [] {
      more, order := [], [];
      assert output + [] == output;
      NothingPicked(on, ps);
    } else {
      var joined := Combine(outer, inners[0]);
      PredicateMeans(on, joined, ps);
      var keep := Accepts(on, joined, ps);
      var rest, tail := InnerSelects(outer, inners[1..], on, ps, if keep then output + [joined] else output);
      more := (if keep then [joined] else []) + rest;
      assert output + [joined] + rest == output + ([joined] + rest) && output + ([] + rest) == output + rest;
      PickFirst(Combined(outer, inners), on, ps, rest, tail);
      order := Prepended(keep, tail);
    }
  }

  lemma NothingPicked(x: Expr, ps: seq<Value>)
    ensures Picks([], x, ps, [], [])
  {
  }

  lemma CombinedFirst(outer: ExecRow, inners: seq<ExecRow>)
    ensures if inners == [] then Combined(outer, inners) == []
            else Combined(outer, inners) != [] && Combined(outer, inners)[0] == Combine(outer, inners[0])
                 && Combined(outer, inners)[1..] == Combined(outer, inners[1..])
  {
    hide Combine;
  }

  /** One outer row with each of the inner ones. */
  function Combined(outer: ExecRow, inners: seq<ExecRow>): seq<ExecRow> {
    seq(|inners|, i requires 0 <= i < |inners| => Combine(outer, inners[i]))
  }

  function FirstPairs(order: seq<nat>): seq<(nat, nat)> {
    seq(|order|, i requires 0 <= i < |order| => (0, order[i]))
  }

  function LaterPairs(order: seq<(nat, nat)>): seq<(nat, nat)> {
    seq(|order|, i requires 0 <= i < |order| => (order[i].0 + 1, order[i].1))
  }

  lemma PairOrder(firsts: seq<nat>, rest: seq<(nat, nat)>, m: nat, n: nat)
    requires Increasing(firsts, n) && PairsWithin(rest, m, n)
    ensures PairsWithin(FirstPairs(firsts) + LaterPairs(rest), m + 1, n)
  {
    var order := FirstPairs(firsts) + LaterPairs(rest);
    forall i, j | 0 <= i < j < |order| ensures Sooner(order[i], order[j]) {
      if i >= |firsts| {
        assert Sooner(rest[i - |firsts|], rest[j - |firsts|]);
      }
    }
  }

  lemma PairMembers(firsts: seq<nat>, rest: seq<(nat, nat)>, a: nat, b: nat)
    ensures (a, b) in FirstPairs(firsts) + LaterPairs(rest)
            <==> if a == 0 then b in firsts else (a - 1, b) in rest
  {
    var order := FirstPairs(firsts) + LaterPairs(rest);
    if (a, b) in order {
      var k :| 0 <= k < |order| && order[k] == (a, b);
      if k < |firsts| {
        assert order[k] == (0, firsts[k]);
      } else {
        assert order[k] == (rest[k - |firsts|].0 + 1, rest[k - |firsts|].1);
      }
    }
    if a == 0 && b in firsts {
      var k :| 0 <= k < |firsts| && firsts[k] == b;
      assert order[k] == (0, b);
    }
    if a > 0 && (a - 1, b) in rest {
      var k :| 0 <= k < |rest| && rest[k] == (a - 1, b);
      assert order[|firsts| + k] == (a, b);
    }
  }

  lemma MatchFirst(outers: seq<ExecRow>, inners: seq<ExecRow>, on: Expr, ps: seq<Value>, more: seq<ExecRow>,
                   firsts: seq<nat>, later: seq<ExecRow>, rest: seq<(nat, nat)>)
    requires outers != [] && Picks(Combined(outers[0], inners), on, ps, more, firsts)
    requires Matches(outers[1..], inners, on, ps, later, rest)
    ensures Matches(outers, inners, on, ps, more + later, FirstPairs(firsts) + LaterPairs(rest))
  {
    hide Accepts, PairsWithin, Increasing;
    var order, joined := FirstPairs(firsts) + LaterPairs(rest), more + later;
    WithinBounds(firsts, rest, |outers| - 1, |inners|);
    PairOrder(firsts, rest, |outers| - 1, |inners|);
    forall i | 0 <= i < |order| ensures order[i].0 < |outers| && order[i].1 < |inners|
                                        && joined[i] == Combine(outers[order[i].0], inners[order[i].1]) {
      if i < |firsts| {
        assert order[i] == (0, firsts[i]) && joined[i] == more[i];
      } else {
        var k := i - |firsts|;
        assert order[i] == (rest[k].0 + 1, rest[k].1) && joined[i] == later[k];
        assert outers[1..][rest[k].0] == outers[order[i].0];
      }
    }
    forall a, b | 0 <= a < |outers| && 0 <= b < |inners|
      ensures (a, b) in order <==> Accepts(on, Combine(outers[a], inners[b]), ps)
    {
      PairMembers(firsts, rest, a, b);
      if a > 0 {
        assert outers[1..][a - 1] == outers[a];
      }
    }
  }

  lemma WithinBounds(firsts: seq<nat>, rest: seq<(nat, nat)>, m: nat, n: nat)
    requires Increasing(firsts, n) && PairsWithin(rest, m, n)
    ensures forall i :: 0 <= i < |firsts| ==> firsts[i] < n
    ensures forall i {:trigger rest[i]} :: 0 <= i < |rest| ==> rest[i].0 < m && rest[i].1 < n
  {
  }

  /** A join returns exactly the pairs its condition is true of, outer rows first. */
  lemma {:induction false} JoinMatches(outers: seq<ExecRow>, inners: seq<ExecRow>, on: Expr, ps: seq<Value>,
                                       output: seq<ExecRow>) returns (joined: seq<ExecRow>, order: seq<(nat, nat)>)
    requires JoinNested(outers, inners, on, ps, output).Ok?
    ensures JoinNested(outers, inners, on, ps, output).value == output + joined
    ensures Matches(outers, inners, on, ps, joined, order)
    decreases |outers|
  {
    hide JoinInner, Accepts, Picks;
    if outers == [] {
      joined, order := [], [];
      assert output + [] == output;
    } else {
      var more, firsts := InnerSelects(outers[0], inners, on, ps, output);
      var later, rest := JoinMatches(outers[1..], inners, on, ps, output + more);
      joined, order := more + later, FirstPairs(firsts) + LaterPairs(rest);
      assert output + more + later == output + (more + later);
      MatchFirst(outers, inners, on, ps, more, firsts, later, rest);
    }
  }

  // --------------------------------------------------------- projection and limits

  predicate ProjectsTo(r: ExecRow, xs: seq<Expr>, ps: seq<Value>, out: ExecRow) {
    && out.aggregates == [] && |out.row| == |xs|
    && forall k :: 0 <= k < |xs| ==> out.row[k] == Meaning(xs[k], r, ps)
  }

  /** A projection computes its columns from each row, in order. */
  lemma {:induction false} ProjectMeans(rows: seq<ExecRow>, xs: seq<Expr>, ps: seq<Value>)
    requires ProjectRows(rows, xs, ps).Ok?
    ensures var out := ProjectRows(rows, xs, ps).value;
            |out| == |rows| && forall i :: 0 <= i < |rows| ==> ProjectsTo(rows[i], xs, ps, out[i])
    decreases |rows|
  {
    hide EvaluateAll, Meaning;
    if rows != [] {
      EvaluateAllMeans(xs, rows[0], ps);
      ProjectMeans(rows[1..], xs, ps);
    }
  }

  predicate LimitsTo(rows: seq<ExecRow>, x: Expr, ps: seq<Value>, out: seq<ExecRow>) {
    var n := Meaning(x, ExecRow([], []), ps);
    n.Int64? && n.number >= 0 && out <= rows && |out| == Smaller(n.number as nat, |rows|)
  }

  /** LIMIT keeps that many rows from the front, or all. */
  lemma LimitMeans(rows: seq<ExecRow>, x: Expr, ps: seq<Value>)
    requires LimitRows(rows, x, ps).Ok?
    ensures LimitsTo(rows, x, ps, LimitRows(rows, x, ps).value)
  {
    hide EvaluateExec, Meaning;
    EvaluateMeans(x, ExecRow([], []), ps);
  }

  // ------------------------------------------------------------------------ sorting

  /** In ascending order values come as their type orders them, and null last. */
  predicate SortsBefore(u: Value, v: Value, descending: bool) {
    var (a, b) := if descending then (v, u) else (u, v);
    (!a.IsNull() && b.IsNull()) || Before(a, b)
  }

  predicate Tied(u: Value, v: Value) {
    !SortsBefore(u, v, false) && !SortsBefore(v, u, false)
  }

  lemma SortValuesMean(u: Value, v: Value, descending: bool)
    ensures var o := CompareSortValues(u, v);
            && ((if descending then Flip(o) else o) == Lesser <==> SortsBefore(u, v, descending))
            && (o == Equal <==> Tied(u, v))
  {
    hide Before;
    if !u.IsNull() && !v.IsNull() && u.TypeTag() == v.TypeTag() {
      CmpIs(u, v);
      BeforeTotal(u, v);
    } else {
      BeforeExactly(u, v);
      BeforeExactly(v, u);
    }
  }

  predicate AheadAt(u: seq<Value>, v: seq<Value>, orderBy: seq<Sorting>, k: nat)
    requires |u| == |v| == |orderBy|
  {
    k < |orderBy| && SortsBefore(u[k], v[k], orderBy[k].descending) && forall l :: 0 <= l < k ==> Tied(u[l], v[l])
  }

  /** Decided by the first sort expression on which the two differ. */
  predicate Ahead(u: seq<Value>, v: seq<Value>, orderBy: seq<Sorting>)
    requires |u| == |v| == |orderBy|
  {
    exists k :: 0 <= k < |orderBy| && AheadAt(u, v, orderBy, k)
  }

  lemma {:induction false} CompareKeysMeans(u: seq<Value>, v: seq<Value>, orderBy: seq<Sorting>)
    requires |u| == |v| == |orderBy|
    ensures CompareKeys(u, v, orderBy) == Lesser <==> Ahead(u, v, orderBy)
    decreases |orderBy|
  {
    hide SortsBefore, Tied;
    if orderBy != [] {
      var a, b, rest := u[1..], v[1..], orderBy[1..];
      CompareKeysMeans(a, b, rest);
      SortValuesMean(u[0], v[0], orderBy[0].descending);
      FlippedTie(u[0], v[0]);
      if Tied(u[0], v[0]) && Ahead(a, b, rest) {
        var k :| 0 <= k < |rest| && AheadAt(a, b, rest, k);
        AheadLater(u, v, orderBy, k);
      }
      if Ahead(u, v, orderBy) {
        var k :| 0 <= k < |orderBy| && AheadAt(u, v, orderBy, k);
        if k > 0 {
          assert Tied(u[0], v[0]) && AheadAt(a, b, rest, k - 1);
        }
      }
      assert SortsBefore(u[0], v[0], orderBy[0].descending) ==> AheadAt(u, v, orderBy, 0);
    }
  }

  lemma AheadLater(u: seq<Value>, v: seq<Value>, orderBy: seq<Sorting>, k: nat)
    requires |u| == |v| == |orderBy| > 0 && Tied(u[0], v[0]) && AheadAt(u[1..], v[1..], orderBy[1..], k)
    ensures AheadAt(u, v, orderBy, k + 1)
  {
    hide SortsBefore, Tied;
    forall l | 0 <= l < k + 1 ensures Tied(u[l], v[l]) {
      assert l > 0 ==> Tied(u[1..][l - 1], v[1..][l - 1]);
    }
  }

  lemma FlippedTie(u: Value, v: Value)
    ensures Tied(u, v) ==> !SortsBefore(u, v, false) && !SortsBefore(u, v, true)
    ensures CompareSortValues(u, v) == Equal <==> Flip(CompareSortValues(u, v)) == Equal
  {
  }

  function SortKeys(r: ExecRow, orderBy: seq<Sorting>, ps: seq<Value>): (keys: seq<Value>)
    ensures |keys| == |orderBy|
  {
    seq(|orderBy|, k requires 0 <= k < |orderBy| => Meaning(orderBy[k].key, r, ps))
  }

  /** Of neighbours the later is never ahead of the earlier, and rows that are not told
      apart stay in the order they came in. */
  predicate Arranges(rows: seq<ExecRow>, orderBy: seq<Sorting>, ps: seq<Value>, sorted: seq<ExecRow>, order: seq<nat>) {
    && |sorted| == |rows| && Permutes(order, |rows|)
    && (forall i :: 0 <= i < |rows| ==> sorted[i] == rows[order[i]])
    && (forall i :: 0 < i < |rows| ==>
          !Ahead(SortKeys(sorted[i], orderBy, ps), SortKeys(sorted[i - 1], orderBy, ps), orderBy))
    && forall i, j :: 0 <= i < j < |rows|
                      && !Ahead(SortKeys(sorted[i], orderBy, ps), SortKeys(sorted[j], orderBy, ps), orderBy)
                      && !Ahead(SortKeys(sorted[j], orderBy, ps), SortKeys(sorted[i], orderBy, ps), orderBy) ==>
                        order[i] < order[j]
  }

  lemma {:induction false} SortExprsAt(orderBy: seq<Sorting>)
    ensures |SortExprs(orderBy)| == |orderBy|
    ensures forall k :: 0 <= k < |orderBy| ==> SortExprs(orderBy)[k] == orderBy[k].key
    decreases |orderBy|
  {
    if orderBy != [] {
      SortExprsAt(orderBy[1..]);
    }
  }

  lemma {:induction false} KeyRowsMean(rows: seq<ExecRow>, orderBy: seq<Sorting>, ps: seq<Value>)
    requires KeyRows(rows, orderBy, ps).Ok?
    ensures var keyed := KeyRows(rows, orderBy, ps).value;
            |keyed| == |rows| && forall i :: 0 <= i < |rows| ==> keyed[i] == (rows[i], SortKeys(rows[i], orderBy, ps))
    decreases |rows|
  {
    hide EvaluateAll, Meaning, SortExprs;
    if rows != [] {
      SortExprsAt(orderBy);
      EvaluateAllMeans(SortExprs(orderBy), rows[0], ps);
      assert EvaluateAll(SortExprs(orderBy), rows[0], ps).value == SortKeys(rows[0], orderBy, ps);
      KeyRowsMean(rows[1..], orderBy, ps);
    }
  }

  lemma {:induction false} UnkeyedAt(rows: seq<Keyed>)
    ensures |Unkeyed(rows)| == |rows| && forall i :: 0 <= i < |rows| ==> Unkeyed(rows)[i] == rows[i].0
    decreases |rows|
  {
    if rows != [] {
      UnkeyedAt(rows[1..]);
    }
  }

  /** ORDER BY returns the rows it was given, in the order it asks for. */
  lemma SortArranges(rows: seq<ExecRow>, orderBy: seq<Sorting>, ps: seq<Value>) returns (order: seq<nat>)
    requires SortRows(rows, orderBy, ps).Ok?
    ensures Arranges(rows, orderBy, ps, SortRows(rows, orderBy, ps).value, order)
  {
    hide KeyRows, SortKeyed, Unkeyed, SortKeys, Permutes, CompareKeys, Ahead;
    KeyRowsMean(rows, orderBy, ps);
    var keyed := KeyRows(rows, orderBy, ps).value;
    var out := SortKeyed(keyed, orderBy);
    SortIsSorted(keyed, orderBy);
    order := SortIsStable(keyed, orderBy);
    UnkeyedAt(out);
    PermutesBound(order, |rows|);
    var sorted := Unkeyed(out);
    forall i | 0 <= i < |rows|
      ensures out[i] == (sorted[i], SortKeys(sorted[i], orderBy, ps)) && sorted[i] == rows[order[i]] {
      assert out[i] == keyed[order[i]];
    }
    forall i, j | 0 <= i < |rows| && 0 <= j < |rows|
      ensures CompareKeys(out[i].1, out[j].1, orderBy) == Lesser
              <==> Ahead(SortKeys(sorted[i], orderBy, ps), SortKeys(sorted[j], orderBy, ps), orderBy)
      ensures CompareKeys(out[i].1, out[j].1, orderBy) == Flip(CompareKeys(out[j].1, out[i].1, orderBy))
    {
      CompareKeysMeans(out[i].1, out[j].1, orderBy);
      KeysFlip(out[i].1, out[j].1, orderBy);
    }
  }

  predicate Comparable(u: Value, v: Value) {
    u.IsNull() || v.IsNull() || u.TypeTag() == v.TypeTag()
  }

  predicate KeysComparable(u: seq<Value>, v: seq<Value>) {
    |u| == |v| && forall k :: 0 <= k < |u| ==> Comparable(u[k], v[k])
  }

  lemma SortsTransitively(u: Value, v: Value, w: Value, descending: bool)
    requires Comparable(u, v) && Comparable(v, w) && Comparable(u, w)
    ensures SortsBefore(u, v, descending) && (SortsBefore(v, w, descending) || Tied(v, w)) ==>
              SortsBefore(u, w, descending)
    ensures Tied(u, v) && SortsBefore(v, w, descending) ==> SortsBefore(u, w, descending)
    ensures Tied(u, v) ==> u == v
    ensures Tied(u, v) || SortsBefore(u, v, descending) || SortsBefore(v, u, descending)
    ensures !(SortsBefore(u, v, descending) && SortsBefore(v, u, descending)) && !SortsBefore(u, u, descending)
  {
    hide EncodeOrdered, Less;
    SortsTotally(u, v);
    SortsTotally(v, w);
    SortsTotally(u, u);
    if Before(u, v) && Before(v, w) {
      LessTransitive(EncodeOrdered(u), EncodeOrdered(v), EncodeOrdered(w));
    }
    if Before(w, v) && Before(v, u) {
      LessTransitive(EncodeOrdered(w), EncodeOrdered(v), EncodeOrdered(u));
    }
  }

  lemma SortsTotally(u: Value, v: Value)
    requires Comparable(u, v)
    ensures u == v <==> Tied(u, v)
    ensures !(SortsBefore(u, v, false) && SortsBefore(v, u, false))
  {
    hide EncodeOrdered, Less, Before;
    BeforeExactly(u, v);
    BeforeExactly(v, u);
    if !u.IsNull() && !v.IsNull() {
      BeforeTotal(u, v);
    }
  }

  /** Being no later is transitive where the keys of each expression have one type. */
  lemma {:induction false} NotAheadTransitive(u: seq<Value>, v: seq<Value>, w: seq<Value>, orderBy: seq<Sorting>)
    requires |u| == |orderBy| && KeysComparable(u, v) && KeysComparable(v, w) && KeysComparable(u, w)
    requires CompareKeys(v, u, orderBy) != Lesser && CompareKeys(w, v, orderBy) != Lesser
    ensures CompareKeys(w, u, orderBy) != Lesser
    decreases |orderBy|
  {
    hide SortsBefore, Tied, CompareSortValues, Comparable;
    if orderBy != [] {
      var d := orderBy[0].descending;
      assert Comparable(u[0], v[0]) && Comparable(v[0], w[0]) && Comparable(u[0], w[0]);
      SortsTransitively(u[0], v[0], w[0], d);
      SortValuesMean(v[0], u[0], d);
      SortValuesMean(w[0], v[0], d);
      SortValuesMean(w[0], u[0], d);
      TieIsMutual(u[0], v[0], d);
      TieIsMutual(v[0], w[0], d);
      TieIsMutual(u[0], w[0], d);
      if Tied(u[0], v[0]) && Tied(v[0], w[0]) {
        NotAheadTransitive(u[1..], v[1..], w[1..], orderBy[1..]);
      }
    }
  }

  lemma TieIsMutual(u: Value, v: Value, descending: bool)
    requires Comparable(u, v)
    ensures Tied(u, v) <==> Tied(v, u)
    ensures Tied(u, v) ==> !SortsBefore(u, v, descending) && !SortsBefore(v, u, descending)
    ensures !(SortsBefore(u, v, descending) && SortsBefore(v, u, descending))
    ensures Tied(u, v) || SortsBefore(u, v, descending) || SortsBefore(v, u, descending)
  {
    hide Before;
    SortsTotally(u, v);
  }

  lemma {:induction false} NeighboursSuffice(keys: seq<seq<Value>>, orderBy: seq<Sorting>, i: nat, j: nat)
    requires i < j < |keys| && forall k :: 0 <= k < |keys| ==> |keys[k]| == |orderBy|
    requires forall k, l :: 0 <= k < |keys| && 0 <= l < |keys| ==> KeysComparable(keys[k], keys[l])
    requires forall k :: 0 < k < |keys| ==> CompareKeys(keys[k], keys[k - 1], orderBy) != Lesser
    ensures CompareKeys(keys[j], keys[i], orderBy) != Lesser
    decreases j - i
  {
    hide CompareKeys, KeysComparable;
    if i + 1 < j {
      NeighboursSuffice(keys, orderBy, i, j - 1);
      NotAheadTransitive(keys[i], keys[j - 1], keys[j], orderBy);
    }
  }

  /** Where each sort expression has one type, no later row is ahead of an earlier one. */
  lemma SortedThroughout(rows: seq<ExecRow>, orderBy: seq<Sorting>, ps: seq<Value>, sorted: seq<ExecRow>,
                         order: seq<nat>, i: nat, j: nat)
    requires Arranges(rows, orderBy, ps, sorted, order) && i < j < |rows|
    requires forall k, l :: 0 <= k < |rows| && 0 <= l < |rows| ==>
               KeysComparable(SortKeys(rows[k], orderBy, ps), SortKeys(rows[l], orderBy, ps))
    ensures !Ahead(SortKeys(sorted[j], orderBy, ps), SortKeys(sorted[i], orderBy, ps), orderBy)
  {
    hide CompareKeys, KeysComparable, Ahead, SortKeys, Permutes;
    PermutesBound(order, |rows|);
    var keys := seq(|sorted|, k requires 0 <= k < |sorted| => SortKeys(sorted[k], orderBy, ps));
    forall k | 0 < k < |keys| ensures CompareKeys(keys[k], keys[k - 1], orderBy) != Lesser {
      CompareKeysMeans(keys[k], keys[k - 1], orderBy);
    }
    NeighboursSuffice(keys, orderBy, i, j);
    CompareKeysMeans(keys[j], keys[i], orderBy);
  }

  // --------------------------------------------------------------------- aggregates

  function Values(x: Expr, rows: seq<ExecRow>, ps: seq<Value>): (vs: seq<Value>)
    ensures |vs| == |rows|
  {
    seq(|rows|, i requires 0 <= i < |rows| => Meaning(x, rows[i], ps))
  }

  lemma ValuesFirst(x: Expr, rows: seq<ExecRow>, ps: seq<Value>)
    requires rows != []
    ensures Values(x, rows, ps) == [Meaning(x, rows[0], ps)] + Values(x, rows[1..], ps)
  {
    hide Meaning;
  }

  predicate NoValues(vs: seq<Value>) {
    forall i :: 0 <= i < |vs| ==> vs[i] == Null
  }

  function SumOf(vs: seq<Value>): int {
    if vs == [] then 0 else (if vs[0].Int64? then vs[0].number as int else 0) + SumOf(vs[1..])
  }

  predicate OneTag(vs: seq<Value>) {
    forall i, j :: 0 <= i < |vs| && 0 <= j < |vs| && !vs[i].IsNull() && !vs[j].IsNull() ==>
                     vs[i].TypeTag() == vs[j].TypeTag()
  }

  /** What an aggregate says of its rows. Minimum and maximum are of values of one type. */
  predicate Summarizes(x: Expr, rows: seq<ExecRow>, ps: seq<Value>, v: Value) {
    && x.Aggregate?
    && if x.argument.None? then x.aggregate.Count? && v.Int64? && v.number as int == |rows|
       else
         var vs := Values(x.argument.value, rows, ps);
         match x.aggregate
         case Count => v.Int64? && v.number as int == |rows| - multiset(vs)[Null]
         case Sum => (NoValues(vs) <==> v == Null) && (v != Null ==> v.Int64? && v.number as int == SumOf(vs))
         case Min => Extremum(vs, v) && (OneTag(vs) ==> forall i :: 0 <= i < |vs| ==> !Before(vs[i], v))
         case Max => Extremum(vs, v) && (OneTag(vs) ==> forall i :: 0 <= i < |vs| ==> !Before(v, vs[i]))
  }

  predicate Extremum(vs: seq<Value>, v: Value) {
    (NoValues(vs) <==> v == Null) && (v != Null ==> v in vs)
  }

  lemma {:induction false} CountMeans(x: Expr, rows: seq<ExecRow>, ps: seq<Value>)
    requires CountValues(x, rows, ps).Ok?
    ensures CountValues(x, rows, ps).value == |rows| - multiset(Values(x, rows, ps))[Null]
    decreases |rows|
  {
    hide EvaluateExec, Meaning, Values;
    if rows != [] {
      EvaluateMeans(x, rows[0], ps);
      CountMeans(x, rows[1..], ps);
      ValuesFirst(x, rows, ps);
      assert multiset(Values(x, rows, ps)) == multiset{Meaning(x, rows[0], ps)} + multiset(Values(x, rows[1..], ps));
    } else {
      assert Values(x, rows, ps) == [];
    }
  }

  lemma NoValuesFirst(v: Value, vs: seq<Value>)
    ensures NoValues([v] + vs) <==> v == Null && NoValues(vs)
    ensures SumOf([v] + vs) == (if v.Int64? then v.number as int else 0) + SumOf(vs)
  {
    assert ([v] + vs)[1..] == vs;
    if NoValues([v] + vs) {
      assert ([v] + vs)[0] == v;
      forall i | 0 <= i < |vs| ensures vs[i] == Null {
        assert ([v] + vs)[i + 1] == vs[i];
      }
    }
  }

  lemma {:induction false} SumMeans(x: Expr, rows: seq<ExecRow>, ps: seq<Value>, sum: Option<i64>)
    requires SumFrom(x, rows, ps, sum).Ok?
    ensures var r, vs := SumFrom(x, rows, ps, sum).value, Values(x, rows, ps);
            && (r.None? <==> sum.None? && NoValues(vs))
            && (r.Some? ==> r.value as int == (if sum.Some? then sum.value as int else 0) + SumOf(vs))
    decreases |rows|
  {
    hide EvaluateExec, Meaning, Values;
    if rows != [] {
      EvaluateMeans(x, rows[0], ps);
      var v := Meaning(x, rows[0], ps);
      SumMeans(x, rows[1..], ps, if v.Int64? then CheckedAdd(if sum.Some? then sum.value else 0, v.number) else sum);
      ValuesFirst(x, rows, ps);
      NoValuesFirst(v, Values(x, rows[1..], ps));
    } else {
      assert Values(x, rows, ps) == [];
    }
  }

  lemma {:induction false} ExtremeOccurs(x: Expr, rows: seq<ExecRow>, ps: seq<Value>, wanted: Order, best: Value)
    requires ExtremeFrom(x, rows, ps, wanted, best).Ok?
    ensures var r, vs := ExtremeFrom(x, rows, ps, wanted, best).value, Values(x, rows, ps);
            && (r == best || r in vs) && (r == Null <==> best == Null && NoValues(vs))
    ensures forall i :: 0 <= i < |rows| ==> EvaluateExec(x, rows[i], ps) == Ok(Meaning(x, rows[i], ps))
    decreases |rows|
  {
    hide EvaluateExec, Meaning, Values, Replaces;
    if rows != [] {
      EvaluateMeans(x, rows[0], ps);
      var v := Meaning(x, rows[0], ps);
      var next := if !v.IsNull() && (best.IsNull() || Replaces(v, best, wanted)) then v else best;
      ExtremeOccurs(x, rows[1..], ps, wanted, next);
      ValuesFirst(x, rows, ps);
      NoValuesFirst(v, Values(x, rows[1..], ps));
      assert forall i :: 0 < i < |rows| ==> rows[i] == rows[1..][i - 1];
    } else {
      assert Values(x, rows, ps) == [];
    }
  }

  lemma {:induction false} OneTagIsOneType(x: Expr, rows: seq<ExecRow>, ps: seq<Value>, tag: nat)
    requires forall i :: 0 <= i < |rows| ==> EvaluateExec(x, rows[i], ps) == Ok(Meaning(x, rows[i], ps))
    requires forall i :: 0 <= i < |rows| && !Meaning(x, rows[i], ps).IsNull() ==>
                           Meaning(x, rows[i], ps).TypeTag() == tag
    ensures OneType(x, rows, ps, tag)
    decreases |rows|
  {
    hide EvaluateExec, Meaning;
    if rows != [] {
      assert forall i :: 0 <= i < |rows[1..]| ==> rows[1..][i] == rows[i + 1];
      OneTagIsOneType(x, rows[1..], ps, tag);
    }
  }

  lemma {:induction false} UnbeatenAt(x: Expr, rows: seq<ExecRow>, ps: seq<Value>, r: Value, wanted: Order, i: nat)
    requires Unbeaten(x, rows, ps, r, wanted) && i < |rows|
    ensures EvaluateExec(x, rows[i], ps).Ok? && !Replaces(EvaluateExec(x, rows[i], ps).value, r, wanted)
    decreases |rows|
  {
    hide EvaluateExec, Replaces;
    if i > 0 {
      UnbeatenAt(x, rows[1..], ps, r, wanted, i - 1);
    }
  }

  lemma ReplacesMeans(v: Value, r: Value)
    ensures Replaces(v, r, Lesser) <==> Before(v, r)
    ensures Replaces(v, r, Greater) <==> Before(r, v)
  {
    hide Before;
    BeforeExactly(v, r);
    BeforeExactly(r, v);
    if !v.IsNull() && v.TypeTag() == r.TypeTag() {
      CmpIs(v, r);
      BeforeTotal(v, r);
    }
  }

  lemma ExtremeMeans(x: Expr, rows: seq<ExecRow>, ps: seq<Value>, wanted: Order)
    requires wanted != Equal && ExtremeFrom(x, rows, ps, wanted, Null).Ok?
    ensures var v, vs := ExtremeFrom(x, rows, ps, wanted, Null).value, Values(x, rows, ps);
            && Extremum(vs, v)
            && (OneTag(vs) ==> forall i :: 0 <= i < |vs| ==>
                  !(if wanted == Lesser then Before(vs[i], v) else Before(v, vs[i])))
  {
    hide EvaluateExec, Meaning, Replaces, Before;
    ExtremeOccurs(x, rows, ps, wanted, Null);
    var v, vs := ExtremeFrom(x, rows, ps, wanted, Null).value, Values(x, rows, ps);
    if OneTag(vs) {
      var tag := v.TypeTag();
      if v != Null {
        var j :| 0 <= j < |vs| && vs[j] == v;
        assert forall i :: 0 <= i < |vs| && !vs[i].IsNull() ==> vs[i].TypeTag() == tag;
      }
      assert forall i :: 0 <= i < |rows| ==> Meaning(x, rows[i], ps) == vs[i];
      OneTagIsOneType(x, rows, ps, tag);
      ExtremeIsExtreme(x, rows, ps, wanted, Null, tag);
      forall i | 0 <= i < |vs| ensures !(if wanted == Lesser then Before(vs[i], v) else Before(v, vs[i])) {
        UnbeatenAt(x, rows, ps, v, wanted, i);
        ReplacesMeans(vs[i], v);
      }
    }
  }

  /** COUNT, SUM, MIN and MAX are what they are called. */
  lemma AggregateMeans(x: Expr, rows: seq<ExecRow>, ps: seq<Value>)
    requires ComputeAggregate(x, rows, ps).Ok?
    ensures Summarizes(x, rows, ps, ComputeAggregate(x, rows, ps).value)
  {
    hide CountValues, SumFrom, ExtremeFrom, Values, Extremum;
    if x.argument.Some? {
      var a := x.argument.value;
      match x.aggregate
      case Count => CountMeans(a, rows, ps);
      case Sum => SumMeans(a, rows, ps, None);
      case Min => ExtremeMeans(a, rows, ps, Lesser);
      case Max => ExtremeMeans(a, rows, ps, Greater);
    }
  }

  // ------------------------------------------------------------------------- groups

  function RowsAt(rows: seq<ExecRow>, order: seq<nat>): seq<ExecRow>
    requires Increasing(order, |rows|)
  {
    seq(|order|, i requires 0 <= i < |order| => rows[order[i]])
  }

  predicate SameKey(a: ExecRow, b: ExecRow, groupBy: seq<Expr>, ps: seq<Value>) {
    forall k :: 0 <= k < |groupBy| ==> Meaning(groupBy[k], a, ps) == Meaning(groupBy[k], b, ps)
  }

  /** One row for a group: its first row and its aggregates. */
  predicate Condenses(members: seq<ExecRow>, xs: seq<Expr>, ps: seq<Value>, out: ExecRow) {
    && out.row == (if members == [] then [] else members[0].row)
    && |out.aggregates| == |xs|
    && forall k :: 0 <= k < |xs| ==> out.aggregates[k].0 == xs[k] && Summarizes(xs[k], members, ps, out.aggregates[k].1)
  }

  predicate Placed(i: nat, groups: seq<seq<nat>>) {
    exists g :: 0 <= g < |groups| && i in groups[g]
  }

  function GroupValues(r: ExecRow, groupBy: seq<Expr>, ps: seq<Value>): Row {
    seq(|groupBy|, k requires 0 <= k < |groupBy| => Meaning(groupBy[k], r, ps))
  }

  predicate Sorts(a: Row, b: Row) {
    EncodeRow(a).Some? && EncodeRow(b).Some? && Less(EncodeRow(a).value, EncodeRow(b).value)
  }

  /** Groups come in the byte order of the rows they are named by. */
  predicate InKeyOrder(rows: seq<ExecRow>, groupBy: seq<Expr>, ps: seq<Value>, groups: seq<seq<nat>>) {
    forall g, h, i, j {:trigger i in groups[g], j in groups[h]} ::
      0 <= g < h < |groups| && i in groups[g] && j in groups[h] && i < |rows| && j < |rows| ==>
        Sorts(GroupValues(rows[i], groupBy, ps), GroupValues(rows[j], groupBy, ps))
  }

  /** The rows fall into groups by the values they are grouped by; with nothing to group by
      there is one group even of no rows. */
  predicate Partitions(rows: seq<ExecRow>, groupBy: seq<Expr>, ps: seq<Value>, groups: seq<seq<nat>>) {
    && (forall g :: 0 <= g < |groups| ==> Increasing(groups[g], |rows|))
    && (rows == [] ==> groups == if groupBy == [] then [[]] else [])
    && (rows != [] ==> forall g :: 0 <= g < |groups| ==> groups[g] != [])
    && (forall i {:trigger Placed(i, groups)} :: 0 <= i < |rows| ==> Placed(i, groups))
    && forall g, h, i, j {:trigger i in groups[g], j in groups[h]} ::
         0 <= g < |groups| && 0 <= h < |groups| && i in groups[g] && j in groups[h] ==>
           (g == h <==> SameKey(rows[i], rows[j], groupBy, ps))
  }

  predicate GroupsTo(rows: seq<ExecRow>, groupBy: seq<Expr>, xs: seq<Expr>, ps: seq<Value>, out: seq<ExecRow>,
                     groups: seq<seq<nat>>) {
    && |out| == |groups| && Partitions(rows, groupBy, ps, groups) && InKeyOrder(rows, groupBy, ps, groups)
    && forall g :: 0 <= g < |groups| ==> Condenses(RowsAt(rows, groups[g]), xs, ps, out[g])
  }

  function PlacesOf(keys: seq<Bytes>, key: Bytes): seq<nat> {
    if keys == [] then [] else Prepended(keys[0] == key, PlacesOf(keys[1..], key))
  }

  lemma {:induction false} PlacesMean(keys: seq<Bytes>, key: Bytes)
    ensures Increasing(PlacesOf(keys, key), |keys|)
    ensures forall i :: i in PlacesOf(keys, key) <==> 0 <= i < |keys| && keys[i] == key
    decreases |keys|
  {
    hide Prepended;
    if keys != [] {
      var tail := PlacesOf(keys[1..], key);
      PlacesMean(keys[1..], key);
      PrependedAt(keys[0] == key, tail, |keys| - 1);
      forall i ensures i in PlacesOf(keys, key) <==> 0 <= i < |keys| && keys[i] == key {
        if i >= 0 {
          PrependedHolds(keys[0] == key, tail, |keys| - 1, i);
          assert 0 < i < |keys| ==> keys[i] == keys[1..][i - 1];
        }
      }
    }
  }

  lemma {:induction false} RowsKeyedAt(rows: seq<ExecRow>, keys: seq<Bytes>, key: Bytes)
    requires |rows| == |keys|
    ensures Increasing(PlacesOf(keys, key), |rows|) && RowsKeyed(rows, keys, key) == RowsAt(rows, PlacesOf(keys, key))
    decreases |rows|
  {
    hide Increasing;
    PlacesMean(keys, key);
    if rows != [] {
      var later, tail := rows[1..], PlacesOf(keys[1..], key);
      RowsKeyedAt(later, keys[1..], key);
      var order := PlacesOf(keys, key);
      PrependedRows(rows, keys[0] == key, tail);
    }
  }

  lemma PrependedRows(rows: seq<ExecRow>, first: bool, tail: seq<nat>)
    requires rows != [] && Increasing(tail, |rows| - 1)
    ensures Increasing(Prepended(first, tail), |rows|)
    ensures RowsAt(rows, Prepended(first, tail)) == (if first then [rows[0]] else []) + RowsAt(rows[1..], tail)
  {
    hide Prepended;
    PrependedAt(first, tail, |rows| - 1);
    var order, later := Prepended(first, tail), rows[1..];
    var a, b := RowsAt(rows, order), (if first then [rows[0]] else []) + RowsAt(later, tail);
    assert forall i :: 0 <= i < |later| ==> later[i] == rows[i + 1];
    forall i | 0 <= i < |a| ensures a[i] == b[i] {
      if !first {
        assert b[i] == later[tail[i]];
      } else if i > 0 {
        assert b[i] == later[tail[i - 1]];
      }
    }
  }

  lemma {:induction false} ComputeAllMeans(xs: seq<Expr>, rows: seq<ExecRow>, ps: seq<Value>)
    requires ComputeAll(xs, rows, ps).Ok?
    ensures var vs := ComputeAll(xs, rows, ps).value;
            |vs| == |xs| && forall k :: 0 <= k < |xs| ==> vs[k].0 == xs[k] && Summarizes(xs[k], rows, ps, vs[k].1)
    decreases |xs|
  {
    hide ComputeAggregate, Summarizes;
    if xs != [] {
      AggregateMeans(xs[0], rows, ps);
      ComputeAllMeans(xs[1..], rows, ps);
    }
  }

  lemma {:induction false} AggregateGroupsMean(names: seq<Bytes>, rows: seq<ExecRow>, keys: seq<Bytes>, xs: seq<Expr>,
                                               ps: seq<Value>)
    requires |rows| == |keys| && AggregateGroups(names, rows, keys, xs, ps).Ok?
    ensures var out := AggregateGroups(names, rows, keys, xs, ps).value;
            |out| == |names|
            && forall g :: 0 <= g < |names| ==> Condenses(RowsKeyed(rows, keys, names[g]), xs, ps, out[g])
    decreases |names|
  {
    hide ComputeAll, Summarizes, RowsKeyed;
    if names != [] {
      ComputeAllMeans(xs, RowsKeyed(rows, keys, names[0]), ps);
      AggregateGroupsMean(names[1..], rows, keys, xs, ps);
    }
  }

  lemma {:induction false} GroupKeysAt(groupBy: seq<Expr>, rows: seq<ExecRow>, ps: seq<Value>, i: nat)
    requires GroupKeys(groupBy, rows, ps).Ok? && i < |rows|
    ensures i < |GroupKeys(groupBy, rows, ps).value|
            && GroupKey(groupBy, rows[i], ps) == Ok(GroupKeys(groupBy, rows, ps).value[i])
    decreases |rows|
  {
    hide GroupKey;
    if i > 0 {
      GroupKeysAt(groupBy, rows[1..], ps, i - 1);
    }
  }

  lemma SameKeyExactly(groupBy: seq<Expr>, a: ExecRow, b: ExecRow, ps: seq<Value>)
    requires GroupKey(groupBy, a, ps).Ok? && GroupKey(groupBy, b, ps).Ok?
    ensures GroupKey(groupBy, a, ps) == GroupKey(groupBy, b, ps) <==> SameKey(a, b, groupBy, ps)
  {
    hide EvaluateAll, EncodeRow, Meaning;
    SameGroup(groupBy, a, b, ps);
    EvaluateAllMeans(groupBy, a, ps);
    EvaluateAllMeans(groupBy, b, ps);
    var v, w := EvaluateAll(groupBy, a, ps).value, EvaluateAll(groupBy, b, ps).value;
    if SameKey(a, b, groupBy, ps) {
      assert v == w;
    }
  }

  function PlacesOfAll(names: seq<Bytes>, keys: seq<Bytes>): seq<seq<nat>> {
    seq(|names|, g requires 0 <= g < |names| => PlacesOf(keys, names[g]))
  }

  lemma NamesMean(groupBy: seq<Expr>, keys: seq<Bytes>)
    ensures var names := GroupNames(groupBy, keys);
            && (forall g, h :: 0 <= g < h < |names| ==> names[g] != names[h])
            && (forall k :: k in keys ==> k in names)
            && (keys != [] ==> forall k :: k in names ==> k in keys)
            && (keys == [] ==> names == if groupBy == [] then [[]] else [])
  {
    var names := GroupNames(groupBy, keys);
    if keys == [] {
      assert Members(keys) == {};
    } else {
      forall g, h | 0 <= g < h < |names| ensures names[g] != names[h] {
        LessIrreflexive(names[g]);
      }
      assert forall k :: k in keys ==> k in Members(keys);
      assert forall k :: k in names ==> k in Members(keys);
    }
  }

  lemma GroupsPartitionRows(groupBy: seq<Expr>, rows: seq<ExecRow>, ps: seq<Value>)
    requires GroupKeys(groupBy, rows, ps).Ok?
    ensures var keys := GroupKeys(groupBy, rows, ps).value;
            Partitions(rows, groupBy, ps, PlacesOfAll(GroupNames(groupBy, keys), keys))
  {
    hide GroupKey, GroupKeys, GroupNames, PlacesOf, SameKey, Increasing;
    OneKeyEach(groupBy, rows, ps);
    var keys := GroupKeys(groupBy, rows, ps).value;
    var names := GroupNames(groupBy, keys);
    var groups := PlacesOfAll(names, keys);
    NamesMean(groupBy, keys);
    forall g | 0 <= g < |groups|
      ensures Increasing(groups[g], |rows|) && forall i :: i in groups[g] <==> 0 <= i < |rows| && keys[i] == names[g] {
      PlacesMean(keys, names[g]);
    }
    if rows == [] {
      NoRowsGroups(names, keys);
    } else {
      forall g | 0 <= g < |groups| ensures groups[g] != [] {
        assert names[g] in names;
        var i :| 0 <= i < |keys| && keys[i] == names[g];
        assert i in groups[g];
      }
    }
    forall i | 0 <= i < |rows| ensures Placed(i, groups) {
      assert keys[i] in keys;
      var g :| 0 <= g < |names| && names[g] == keys[i];
      assert i in groups[g];
    }
    forall g, h, i, j | 0 <= g < |groups| && 0 <= h < |groups| && i in groups[g] && j in groups[h]
      ensures g == h <==> SameKey(rows[i], rows[j], groupBy, ps)
    {
      GroupKeysAt(groupBy, rows, ps, i);
      GroupKeysAt(groupBy, rows, ps, j);
      SameKeyExactly(groupBy, rows[i], rows[j], ps);
    }
  }

  lemma NoRowsGroups(names: seq<Bytes>, keys: seq<Bytes>)
    requires keys == [] && (names == [[]] || names == [])
    ensures PlacesOfAll(names, keys) == if names == [] then [] else [[]]
  {
  }

  lemma GroupKeyIs(groupBy: seq<Expr>, r: ExecRow, ps: seq<Value>)
    requires GroupKey(groupBy, r, ps).Ok?
    ensures EncodeRow(GroupValues(r, groupBy, ps)) == Some(GroupKey(groupBy, r, ps).value)
  {
    hide EvaluateAll, EncodeRow, Meaning;
    EvaluateAllMeans(groupBy, r, ps);
    assert EvaluateAll(groupBy, r, ps).value == GroupValues(r, groupBy, ps);
  }

  lemma GroupsInKeyOrder(groupBy: seq<Expr>, rows: seq<ExecRow>, ps: seq<Value>)
    requires GroupKeys(groupBy, rows, ps).Ok?
    ensures var keys := GroupKeys(groupBy, rows, ps).value;
            InKeyOrder(rows, groupBy, ps, PlacesOfAll(GroupNames(groupBy, keys), keys))
  {
    hide GroupKey, GroupKeys, PlacesOf, Increasing, GroupValues, EncodeRow, Less;
    OneKeyEach(groupBy, rows, ps);
    var keys := GroupKeys(groupBy, rows, ps).value;
    var names := GroupNames(groupBy, keys);
    var groups := PlacesOfAll(names, keys);
    forall g, h, i, j | 0 <= g < h < |groups| && i in groups[g] && j in groups[h] && i < |rows| && j < |rows|
      ensures Sorts(GroupValues(rows[i], groupBy, ps), GroupValues(rows[j], groupBy, ps))
    {
      PlacesMean(keys, names[g]);
      PlacesMean(keys, names[h]);
      GroupKeysAt(groupBy, rows, ps, i);
      GroupKeysAt(groupBy, rows, ps, j);
      GroupKeyIs(groupBy, rows[i], ps);
      GroupKeyIs(groupBy, rows[j], ps);
      assert Less(names[g], names[h]);
    }
  }

  /** GROUP BY gives one row for each combination of values, with its aggregates. */
  lemma AggregateRowsMean(rows: seq<ExecRow>, groupBy: seq<Expr>, xs: seq<Expr>, ps: seq<Value>)
    returns (groups: seq<seq<nat>>)
    requires AggregateRows(rows, groupBy, xs, ps).Ok?
    ensures GroupsTo(rows, groupBy, xs, ps, AggregateRows(rows, groupBy, xs, ps).value, groups)
  {
    hide GroupKeys, GroupNames, PlacesOf, RowsKeyed, Condenses, Partitions, Increasing, AggregateGroups, InKeyOrder;
    OneKeyEach(groupBy, rows, ps);
    var keys := GroupKeys(groupBy, rows, ps).value;
    var names := GroupNames(groupBy, keys);
    groups := PlacesOfAll(names, keys);
    GroupsPartitionRows(groupBy, rows, ps);
    GroupsInKeyOrder(groupBy, rows, ps);
    AggregateGroupsMean(names, rows, keys, xs, ps);
    var out := AggregateRows(rows, groupBy, xs, ps).value;
    forall g | 0 <= g < |groups|
      ensures Increasing(groups[g], |rows|) && Condenses(RowsAt(rows, groups[g]), xs, ps, out[g]) {
      RowsKeyedAt(rows, keys, names[g]);
    }
  }

  // ------------------------------------------------------------------------ queries

  /** The answers to a query, without saying how they are found. */
  ghost predicate Answers(e: Engine, t: Transaction, p: LogicalPlan, ps: seq<Value>, out: seq<ExecRow>) {
    match p
    case Scan(table) => out == Plain(ScanTable(e, t, table.meta.id))
    case Filter(input, x) =>
      exists rows, order :: Answers(e, t, input, ps, rows) && Picks(rows, x, ps, out, order)
    case Join(left, right, on) =>
      exists outers, inners, order ::
        && Answers(e, t, left, ps, outers) && Answers(e, t, right, ps, inners)
        && Matches(outers, inners, on, ps, out, order)
    case Aggregated(input, groupBy, xs) =>
      exists rows, groups :: Answers(e, t, input, ps, rows) && GroupsTo(rows, groupBy, xs, ps, out, groups)
    case Sort(input, orderBy) =>
      exists rows, order :: Answers(e, t, input, ps, rows) && Arranges(rows, orderBy, ps, out, order)
    case Limit(input, x) => exists rows :: Answers(e, t, input, ps, rows) && LimitsTo(rows, x, ps, out)
    case Project(input, xs) =>
      exists rows :: Answers(e, t, input, ps, rows) && Projects(rows, xs, ps, out)
  }

  predicate Projects(rows: seq<ExecRow>, xs: seq<Expr>, ps: seq<Value>, out: seq<ExecRow>) {
    |out| == |rows| && forall i :: 0 <= i < |rows| ==> ProjectsTo(rows[i], xs, ps, out[i])
  }

  /** Scans and nested loops answer the query. */
  lemma {:induction false} NaiveAnswers(e: Engine, t: Transaction, p: LogicalPlan, ps: seq<Value>)
    requires Execute(e, t, Naive(p), ps).Ok?
    ensures Answers(e, t, p, ps, Execute(e, t, Naive(p), ps).value)
    decreases p
  {
    hide FilterRows, JoinNested, AggregateRows, SortRows, LimitRows, ProjectRows, Picks, Matches, GroupsTo, Arranges,
         LimitsTo, ProjectsTo, ScanTable, Plain, HashJoin;
    var out := Execute(e, t, Naive(p), ps).value;
    match p
    case Scan(_) =>
    case Join(left, right, on) =>
      NaiveAnswers(e, t, left, ps);
      NaiveAnswers(e, t, right, ps);
      var outers, inners := Execute(e, t, Naive(left), ps).value, Execute(e, t, Naive(right), ps).value;
      var joined, order := JoinMatches(outers, inners, on, ps, []);
      assert [] + joined == joined;
      assert Answers(e, t, left, ps, outers) && Answers(e, t, right, ps, inners)
             && Matches(outers, inners, on, ps, out, order);
    case Filter(input, x) =>
      NaiveAnswers(e, t, input, ps);
      var rows := Execute(e, t, Naive(input), ps).value;
      var order := FilterSelects(rows, x, ps);
      assert Answers(e, t, input, ps, rows) && Picks(rows, x, ps, out, order);
    case Aggregated(input, groupBy, xs) =>
      NaiveAnswers(e, t, input, ps);
      var rows := Execute(e, t, Naive(input), ps).value;
      var groups := AggregateRowsMean(rows, groupBy, xs, ps);
      assert Answers(e, t, input, ps, rows) && GroupsTo(rows, groupBy, xs, ps, out, groups);
    case Sort(input, orderBy) =>
      NaiveAnswers(e, t, input, ps);
      var rows := Execute(e, t, Naive(input), ps).value;
      var order := SortArranges(rows, orderBy, ps);
      assert Answers(e, t, input, ps, rows) && Arranges(rows, orderBy, ps, out, order);
    case Limit(input, x) =>
      NaiveAnswers(e, t, input, ps);
      var rows := Execute(e, t, Naive(input), ps).value;
      LimitMeans(rows, x, ps);
      assert Answers(e, t, input, ps, rows) && LimitsTo(rows, x, ps, out);
    case Project(input, xs) =>
      NaiveAnswers(e, t, input, ps);
      var rows := Execute(e, t, Naive(input), ps).value;
      ProjectMeans(rows, xs, ps);
      assert Answers(e, t, input, ps, rows) && Projects(rows, xs, ps, out);
  }
}
