/** The linearizability checker for histories of get, put and compare-and-set. */
module HistoryCheck {
  import opened Wrappers

  const MAX_OPERATIONS: nat := 63

  /** The scalar values a history records. */
  datatype Json = Null | Flag(value: bool) | Number(number: int) | Text(text: string)

  /** A flag equals the number it stands for. */
  predicate Same(a: Json, b: Json) {
    match (a, b)
    case (Flag(x), Number(n)) => n == if x then 1 else 0
    case (Number(n), Flag(x)) => n == if x then 1 else 0
    case _ => a == b
  }

  datatype Action =
    | Get(seen: Json)
    | Put(input: Json, output: Option<Json>)
    | Cas(expected: Json, replacement: Json, reported: Json)

  datatype Operation = Operation(key: string, action: Action, start: int, end: int)

  type State = map<string, Json>

  function Lookup(s: State, key: string): Json {
    if key in s then s[key] else Null
  }

  /** The state after an operation, or nothing when its recorded output is impossible. */
  function Apply(op: Operation, s: State): Option<State> {
    match op.action
    case Get(seen) => if Same(seen, Lookup(s, op.key)) then Some(s) else None
    case Put(input, output) => if output.Some? && output.value != Flag(true) then None else Some(s[op.key := input])
    case Cas(expected, replacement, reported) =>
      var succeeded := Same(Lookup(s, op.key), expected);
      if reported != Flag(succeeded) then None else Some(if succeeded then s[op.key := replacement] else s)
  }

  // ------------------------------------------------------------------ what is right

  predicate Precedes(ops: seq<Operation>, a: nat, b: nat)
    requires a < |ops| && b < |ops|
  {
    a != b && ops[a].end <= ops[b].start
  }

  function Members(order: seq<nat>): set<nat> {
    set i | i in order
  }

  function Below(n: nat): (s: set<nat>)
    ensures forall i: nat :: i in s <==> i < n
  {
    if n == 0 then {} else Below(n - 1) + {n - 1}
  }

  function All(ops: seq<Operation>): set<nat> {
    Below(|ops|)
  }

  predicate Indexes(order: seq<nat>, n: nat) {
    forall i :: 0 <= i < |order| ==> order[i] < n
  }

  predicate Distinct(order: seq<nat>) {
    forall i, j :: 0 <= i < j < |order| ==> order[i] != order[j]
  }

  predicate Legal(ops: seq<Operation>, s: State, order: seq<nat>)
    requires Indexes(order, |ops|)
    decreases |order|
  {
    order == [] || (Apply(ops[order[0]], s).Some? && Legal(ops, Apply(ops[order[0]], s).value, order[1..]))
  }

  /** No operation comes before one that finished no later than it started. */
  predicate RealTime(ops: seq<Operation>, order: seq<nat>)
    requires Indexes(order, |ops|)
  {
    forall i, j :: 0 <= i < j < |order| ==> !Precedes(ops, order[j], order[i])
  }

  /** Every operation once, in real-time order, each with its recorded output. */
  predicate Linearization(ops: seq<Operation>, initial: State, order: seq<nat>) {
    Distinct(order) && Members(order) == All(ops) && Indexes(order, |ops|) && RealTime(ops, order)
      && Legal(ops, initial, order)
  }

  ghost predicate Linearizable(ops: seq<Operation>, initial: State) {
    exists order :: Linearization(ops, initial, order)
  }

  // ---------------------------------------------------------------- register laws

  /** The operation says it wrote: every put, and a compare-and-set that reports success. */
  predicate Writes(op: Operation, key: string) {
    op.key == key && (op.action.Put? || (op.action.Cas? && op.action.reported == Flag(true)))
  }

  function WrittenBy(op: Operation): Json
    requires Writes(op, op.key)
  {
    if op.action.Put? then op.action.input else op.action.replacement
  }

  /** What a key holds before the `i`-th operation: the last value written to it. */
  function Content(ops: seq<Operation>, initial: State, order: seq<nat>, i: nat, key: string): Json
    requires Indexes(order, |ops|) && i <= |order|
  {
    if i == 0 then Lookup(initial, key)
    else if Writes(ops[order[i - 1]], key) then WrittenBy(ops[order[i - 1]])
    else Content(ops, initial, order, i - 1, key)
  }

  /** A get saw what its key holds, a compare-and-set reports whether its key holds what it
      expected, and a put was not refused. */
  predicate Explained(op: Operation, content: Json) {
    match op.action
    case Get(seen) => Same(seen, content)
    case Put(_, output) => output.Some? ==> output.value == Flag(true)
    case Cas(expected, _, reported) => reported == Flag(Same(content, expected))
  }

  lemma ApplyExplains(op: Operation, s: State)
    ensures Apply(op, s).Some? <==> Explained(op, Lookup(s, op.key))
    ensures Apply(op, s).Some? ==> forall key :: Lookup(Apply(op, s).value, key)
                                                 == if Writes(op, key) then WrittenBy(op) else Lookup(s, key)
  {
  }

  lemma {:induction false} ContentAfterFirst(ops: seq<Operation>, s: State, t: State, order: seq<nat>, i: nat,
                                             key: string)
    requires Indexes(order, |ops|) && 0 < i <= |order|
    requires Lookup(t, key) == if Writes(ops[order[0]], key) then WrittenBy(ops[order[0]]) else Lookup(s, key)
    ensures Indexes(order[1..], |ops|)
            && Content(ops, s, order, i, key) == Content(ops, t, order[1..], i - 1, key)
    decreases i
  {
    hide Writes, Lookup;
    if i > 1 {
      ContentAfterFirst(ops, s, t, order, i - 1, key);
    } else {
      assert Content(ops, s, order, 0, key) == Lookup(s, key);
    }
  }

  predicate AllExplained(ops: seq<Operation>, s: State, order: seq<nat>)
    requires Indexes(order, |ops|)
  {
    forall i {:trigger order[i]} :: 0 <= i < |order| ==>
      Explained(ops[order[i]], Content(ops, s, order, i, ops[order[i]].key))
  }

  /** An order is legal exactly when every output is explained by the last value written. */
  lemma {:induction false} LegalExactly(ops: seq<Operation>, s: State, order: seq<nat>)
    requires Indexes(order, |ops|)
    ensures Legal(ops, s, order) <==> AllExplained(ops, s, order)
    decreases |order|
  {
    hide Explained, Apply, Writes;
    if order != [] {
      var op, rest := ops[order[0]], order[1..];
      ApplyExplains(op, s);
      assert Content(ops, s, order, 0, op.key) == Lookup(s, op.key);
      if Apply(op, s).Some? {
        var t := Apply(op, s).value;
        LegalExactly(ops, t, rest);
        forall i | 0 < i < |order|
          ensures rest[i - 1] == order[i]
          ensures Content(ops, s, order, i, ops[order[i]].key)
                  == Content(ops, t, rest, i - 1, ops[rest[i - 1]].key) {
          ContentAfterFirst(ops, s, t, order, i, ops[order[i]].key);
        }
        if AllExplained(ops, s, order) {
          forall i | 0 <= i < |rest| ensures Explained(ops[rest[i]], Content(ops, t, rest, i, ops[rest[i]].key)) {
            assert rest[i] == order[i + 1];
          }
        }
      } else {
        assert !Explained(ops[order[0]], Content(ops, s, order, 0, ops[order[0]].key));
      }
    }
  }

  // ------------------------------------------------------------------ what is searched

  function Predecessors(ops: seq<Operation>, b: nat): set<nat>
    requires b < |ops|
  {
    set a | 0 <= a < |ops| && Precedes(ops, a, b)
  }

  predicate Enabled(ops: seq<Operation>, done: set<nat>, i: nat) {
    i < |ops| && i !in done && Predecessors(ops, i) <= done
  }

  /** `rest` finishes the operations that are not done. */
  predicate Completes(ops: seq<Operation>, done: set<nat>, s: State, rest: seq<nat>)
    decreases |rest|
  {
    if rest == [] then done == All(ops)
    else
      && Enabled(ops, done, rest[0]) && Apply(ops[rest[0]], s).Some?
      && Completes(ops, done + {rest[0]}, Apply(ops[rest[0]], s).value, rest[1..])
  }

  ghost predicate Dead(ops: seq<Operation>, done: set<nat>, s: State) {
    forall rest {:trigger Completes(ops, done, s, rest)} :: !Completes(ops, done, s, rest)
  }

  lemma FirstMember(rest: seq<nat>)
    requires rest != []
    ensures Members(rest) == {rest[0]} + Members(rest[1..])
  {
    assert forall i :: i in rest <==> i == rest[0] || i in rest[1..];
  }

  lemma NoMembers(ops: seq<Operation>, rest: seq<nat>)
    requires rest == []
    ensures Members(rest) == {} && Distinct(rest) && Indexes(rest, |ops|) && RealTime(ops, rest)
  {
  }

  /** Putting first an operation that nothing later precedes. */
  lemma FirstInTime(ops: seq<Operation>, rest: seq<nat>)
    requires rest != [] && rest[0] < |ops| && Indexes(rest[1..], |ops|) && RealTime(ops, rest[1..])
             && Distinct(rest[1..])
    requires rest[0] !in Members(rest[1..]) && Predecessors(ops, rest[0]) !! Members(rest[1..])
    ensures Indexes(rest, |ops|) && RealTime(ops, rest) && Distinct(rest)
  {
    var tail := rest[1..];
    assert forall i :: 0 < i < |rest| ==> rest[i] == tail[i - 1] && rest[i] in Members(tail);
    forall i, j | 0 <= i < j < |rest| ensures !Precedes(ops, rest[j], rest[i]) {
      if i == 0 {
        assert rest[j] !in Predecessors(ops, rest[0]);
      }
    }
  }

  /** What a completion looks like from outside. */
  lemma {:induction false} CompletionShape(ops: seq<Operation>, done: set<nat>, s: State, rest: seq<nat>)
    requires Completes(ops, done, s, rest) && done <= All(ops)
    ensures Distinct(rest) && done !! Members(rest) && done + Members(rest) == All(ops)
    ensures Indexes(rest, |ops|)
    ensures Legal(ops, s, rest) && RealTime(ops, rest)
    decreases |rest|
  {
    hide Apply, Members, RealTime, Distinct, Indexes;
    if rest != [] {
      var first, tail := rest[0], rest[1..];
      CompletionShape(ops, done + {first}, Apply(ops[first], s).value, tail);
      FirstMember(rest);
      assert first !in Members(tail) && Predecessors(ops, first) !! Members(tail);
      FirstInTime(ops, rest);
    } else {
      NoMembers(ops, rest);
    }
  }

  /** And any order that looks like that is one. */
  lemma {:induction false} ShapeCompletes(ops: seq<Operation>, done: set<nat>, s: State, rest: seq<nat>)
    requires Distinct(rest) && done !! Members(rest) && done + Members(rest) == All(ops)
    requires Indexes(rest, |ops|)
    requires Legal(ops, s, rest) && RealTime(ops, rest)
    ensures Completes(ops, done, s, rest)
    decreases |rest|
  {
    if rest != [] {
      var first, tail := rest[0], rest[1..];
      assert forall i :: 0 <= i < |tail| ==> tail[i] == rest[i + 1];
      assert forall i :: i in tail ==> i in rest;
      assert first in Members(rest) && first !in tail;
      assert Members(rest) == {first} + Members(tail) by {
        assert forall i :: i in rest <==> i == first || i in tail;
      }
      forall p | p in rest ensures p !in Predecessors(ops, first) {
        var j :| 0 <= j < |rest| && rest[j] == p;
      }
      assert Predecessors(ops, first) <= done;
      assert (done + {first}) + Members(tail) == All(ops);
      ShapeCompletes(ops, done + {first}, Apply(ops[first], s).value, tail);
    } else {
      assert Members(rest) == {};
    }
  }

  /** The search looks for exactly the linearizations. */
  lemma CompletionIsLinearization(ops: seq<Operation>, initial: State, order: seq<nat>)
    ensures Completes(ops, {}, initial, order) <==> Linearization(ops, initial, order)
  {
    if Completes(ops, {}, initial, order) {
      CompletionShape(ops, {}, initial, order);
    }
    if Linearization(ops, initial, order) {
      ShapeCompletes(ops, {}, initial, order);
    }
  }

  // ----------------------------------------------------------------------- the search

  class Searcher {
    const ops: seq<Operation>
    var memo: set<(set<nat>, State)>
    var explored: nat

    constructor (ops: seq<Operation>)
      ensures this.ops == ops && memo == {} && explored == 0
    {
      this.ops, memo, explored := ops, {}, 0;
    }

    /** States remembered with at least `level` operations done lead nowhere. */
    ghost predicate Settled(level: nat)
      reads this
    {
      forall m {:trigger m in memo} :: m in memo && |m.0| >= level ==> Dead(ops, m.0, m.1)
    }

    /** A completion of `done`, if there is one; a remembered state is not tried again. */
    method Search(done: set<nat>, s: State, order: seq<nat>) returns (r: Option<seq<nat>>)
      requires done <= All(ops) && Settled(|done|)
      modifies this
      ensures r.None? ==> Dead(ops, done, s) && Settled(|done|)
      ensures r.Some? ==> order <= r.value && Completes(ops, done, s, r.value[|order|..])
      ensures old(memo) <= memo && forall m {:trigger m in memo} :: m in memo && m !in old(memo) ==> |m.0| >= |done|
      ensures explored > old(explored)
      decreases |All(ops) - done|
    {
      hide Dead, Apply, Completes, Enabled;
      explored := explored + 1;
      if done == All(ops) {
        assert order[|order|..] == [];
        Finished(ops, s);
        return Some(order);
      }
      if (done, s) in memo {
        return None;
      }
      memo := memo + {(done, s)};
      var i := 0;
      while i < |ops|
        invariant 0 <= i <= |ops|
        invariant old(memo) + {(done, s)} <= memo && explored > old(explored)
        invariant forall m {:trigger m in memo} :: m in memo && m !in old(memo) ==> |m.0| >= |done|
        invariant forall m {:trigger m in memo} :: m in memo && m !in old(memo) && |m.0| == |done| ==> m == (done, s)
        invariant Settled(|done| + 1)
        invariant forall j {:trigger Tried(ops, done, s, j)} :: 0 <= j < i ==> Tried(ops, done, s, j)
      {
        if Enabled(ops, done, i) {
          InRange(ops, done, i);
          var next := Apply(ops[i], s);
          if next.Some? {
            NextLevel(ops, done, i);
            r := Search(done + {i}, next.value, order + [i]);
            if r.Some? {
              Extended(ops, done, s, i, order, r.value);
              return;
            }
          }
        }
        assert Tried(ops, done, s, i);
        i := i + 1;
      }
      AllTried(ops, done, s);
      return None;
    }
  }

  /** Doing `i` next leads nowhere. */
  ghost predicate Tried(ops: seq<Operation>, done: set<nat>, s: State, i: nat) {
    Enabled(ops, done, i) && Apply(ops[i], s).Some? ==> Dead(ops, done + {i}, Apply(ops[i], s).value)
  }

  lemma InRange(ops: seq<Operation>, done: set<nat>, i: nat)
    requires Enabled(ops, done, i)
    ensures i < |ops|
  {
  }

  lemma Finished(ops: seq<Operation>, s: State)
    ensures Completes(ops, All(ops), s, [])
  {
  }

  lemma NextLevel(ops: seq<Operation>, done: set<nat>, i: nat)
    requires Enabled(ops, done, i) && done <= All(ops)
    ensures done + {i} <= All(ops) && |done + {i}| == |done| + 1 && |All(ops) - (done + {i})| < |All(ops) - done|
  {
    assert i in All(ops) - done;
    Fewer(All(ops) - (done + {i}), All(ops) - done);
  }

  lemma Fewer(a: set<nat>, b: set<nat>)
    requires a < b
    ensures |a| < |b|
  {
    var x :| x in b && x !in a;
    assert a <= b - {x};
    Subset(a, b - {x});
  }

  lemma {:induction false} Subset(a: set<nat>, b: set<nat>)
    requires a <= b
    ensures |a| <= |b|
    decreases |a|
  {
    if a != {} {
      var x :| x in a;
      Subset(a - {x}, b - {x});
    }
  }

  lemma Extended(ops: seq<Operation>, done: set<nat>, s: State, i: nat, order: seq<nat>, found: seq<nat>)
    requires Enabled(ops, done, i) && Apply(ops[i], s).Some? && order + [i] <= found
    requires Completes(ops, done + {i}, Apply(ops[i], s).value, found[|order + [i]|..])
    ensures order <= found && Completes(ops, done, s, found[|order|..])
  {
    var rest := found[|order|..];
    assert rest[0] == found[|order|] == i && rest[1..] == found[|order| + 1..];
  }

  lemma AllTried(ops: seq<Operation>, done: set<nat>, s: State)
    requires done != All(ops) && forall j {:trigger Tried(ops, done, s, j)} :: 0 <= j < |ops| ==> Tried(ops, done, s, j)
    ensures Dead(ops, done, s)
  {
    forall rest ensures !Completes(ops, done, s, rest) {
      if rest != [] && Enabled(ops, done, rest[0]) {
        assert Tried(ops, done, s, rest[0]);
      }
    }
  }

  // ---------------------------------------------------------------------- the checker

  datatype HistoryError = TooMany | Backwards(position: nat)

  datatype Verdict = Verdict(valid: bool, order: seq<nat>, explored: nat)

  predicate WellFormed(ops: seq<Operation>) {
    |ops| <= MAX_OPERATIONS && forall i :: 0 <= i < |ops| ==> ops[i].start <= ops[i].end
  }

  /** The verdict is valid exactly when the history is linearizable, and then shows how. */
  method CheckLinearizable(ops: seq<Operation>, initial: State) returns (r: Result<Verdict, HistoryError>)
    ensures r.Ok? <==> WellFormed(ops)
    ensures r.Ok? ==> (r.value.valid <==> Linearizable(ops, initial))
    ensures r.Ok? && r.value.valid ==> Linearization(ops, initial, r.value.order)
  {
    hide Linearization, Completes;
    if |ops| > MAX_OPERATIONS {
      return Err(TooMany);
    }
    var i := 0;
    while i < |ops|
      invariant 0 <= i <= |ops| && forall j :: 0 <= j < i ==> ops[j].start <= ops[j].end
    {
      if ops[i].start > ops[i].end {
        return Err(Backwards(i));
      }
      i := i + 1;
    }
    var searcher := new Searcher(ops);
    var found := searcher.Search({}, initial, []);
    forall order ensures Completes(ops, {}, initial, order) <==> Linearization(ops, initial, order) {
      CompletionIsLinearization(ops, initial, order);
    }
    if found.Some? {
      assert found.value[0..] == found.value;
      assert Linearization(ops, initial, found.value);
      return Ok(Verdict(true, found.value, searcher.explored));
    }
    return Ok(Verdict(false, [], searcher.explored));
  }
}
