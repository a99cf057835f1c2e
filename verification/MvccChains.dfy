/** What applying a transaction does to each version chain. */
module MvccChains {
  import opened Wrappers
  import opened Ordering
  import opened OrderedKeys
  import opened Mvcc

  // -------------------------------------------------------------------- ordering

  lemma KeyLessTransitive(a: LogicalKey, b: LogicalKey, c: LogicalKey)
    requires KeyLess(a, b) && KeyLess(b, c)
    ensures KeyLess(a, c)
  {
    if a.table == b.table == c.table {
      LessTransitive(a.primaryKey, b.primaryKey, c.primaryKey);
    }
  }

  ghost predicate DistinctKeys(ws: seq<TxnWrite>) {
    forall i, j {:trigger ws[i], ws[j]} :: 0 <= i < j < |ws| ==> ws[i].Key() != ws[j].Key()
  }

  lemma {:induction false} AscendingKeys(ws: seq<TxnWrite>, i: nat, j: nat)
    requires forall n :: 0 < n < |ws| ==> KeyLess(ws[n - 1].Key(), ws[n].Key())
    requires i < j < |ws|
    ensures KeyLess(ws[i].Key(), ws[j].Key())
    decreases j
  {
    if i < j - 1 {
      AscendingKeys(ws, i, j - 1);
      KeyLessTransitive(ws[i].Key(), ws[j - 1].Key(), ws[j].Key());
    }
  }

  lemma CanonicalDistinct(a: Attempt)
    requires Canonical(a)
    ensures DistinctKeys(a.writes)
  {
    forall i, j | 0 <= i < j < |a.writes| ensures a.writes[i].Key() != a.writes[j].Key() {
      AscendingKeys(a.writes, i, j);
      LessIrreflexive(a.writes[i].Key().primaryKey);
    }
  }

  /** What a list of writes leaves under each key. */
  function WritesOf(ws: seq<TxnWrite>): map<LogicalKey, Option<Row>> {
    if ws == [] then map[] else WritesOf(ws[1..])[ws[0].Key() := ws[0].NewRow()]
  }

  lemma {:induction false} WritesOfKeys(ws: seq<TxnWrite>, k: LogicalKey)
    ensures k in WritesOf(ws) <==> exists i :: 0 <= i < |ws| && ws[i].Key() == k
    decreases |ws|
  {
    if ws != [] {
      WritesOfKeys(ws[1..], k);
      if k in WritesOf(ws[1..]) {
        var i :| 0 <= i < |ws[1..]| && ws[1..][i].Key() == k;
        assert ws[i + 1].Key() == k;
      }
      if exists i :: 0 <= i < |ws| && ws[i].Key() == k {
        var i :| 0 <= i < |ws| && ws[i].Key() == k;
        assert i > 0 ==> ws[1..][i - 1].Key() == k;
      }
    }
  }

  lemma DistinctRest(ws: seq<TxnWrite>)
    requires DistinctKeys(ws) && ws != []
    ensures DistinctKeys(ws[1..]) && ws[0].Key() !in WritesOf(ws[1..])
  {
    var rest := ws[1..];
    forall i, j | 0 <= i < j < |rest| ensures rest[i].Key() != rest[j].Key() {
      assert rest[i] == ws[i + 1] && rest[j] == ws[j + 1];
    }
    WritesOfKeys(rest, ws[0].Key());
    forall i | 0 <= i < |rest| ensures rest[i].Key() != ws[0].Key() {
      assert rest[i] == ws[i + 1];
    }
  }

  // --------------------------------------------------------------------- visible

  lemma PushedRow(commit: nat, row: Option<Row>, vs: seq<RowVersion>, ts: nat)
    ensures VisibleRow([RowVersion(commit, row)] + vs, ts) == if commit <= ts then row else VisibleRow(vs, ts)
  {
    assert ([RowVersion(commit, row)] + vs)[1..] == vs;
  }

  lemma PushedMark(commit: nat, present: bool, vs: seq<SecondaryVersion>, ts: nat)
    ensures VisibleMark([SecondaryVersion(commit, present)] + vs, ts) == if commit <= ts then present
            else VisibleMark(vs, ts)
  {
    assert ([SecondaryVersion(commit, present)] + vs)[1..] == vs;
  }

  /** Newest first, all within `(0, last]`. */
  ghost predicate RowChain(vs: seq<RowVersion>, last: nat) {
    && (forall i {:trigger vs[i]} :: 0 <= i < |vs| ==> 0 < vs[i].commit <= last)
    && (forall i, j {:trigger vs[i], vs[j]} :: 0 <= i < j < |vs| ==> vs[i].commit > vs[j].commit)
  }

  ghost predicate MarkChain(vs: seq<SecondaryVersion>, last: nat) {
    && (forall i {:trigger vs[i]} :: 0 <= i < |vs| ==> 0 < vs[i].commit <= last)
    && (forall i, j {:trigger vs[i], vs[j]} :: 0 <= i < j < |vs| ==> vs[i].commit > vs[j].commit)
  }

  /** Nothing changes after the last commit. */
  lemma LatestRow(vs: seq<RowVersion>, last: nat, ts: nat)
    requires RowChain(vs, last) && last <= ts
    ensures VisibleRow(vs, ts) == VisibleRow(vs, last)
  {
    if vs != [] {
      assert vs[0].commit <= last;
    }
  }

  lemma LatestMark(vs: seq<SecondaryVersion>, last: nat, ts: nat)
    requires MarkChain(vs, last) && last <= ts
    ensures VisibleMark(vs, ts) == VisibleMark(vs, last)
  {
    if vs != [] {
      assert vs[0].commit <= last;
    }
  }

  // ------------------------------------------------------------------ primary

  lemma {:induction false} ApplyWritesFrame(e: Engine, c: Catalog, base: nat, commit: nat, ws: seq<TxnWrite>)
    ensures var r := ApplyWrites(e, c, base, commit, ws); r == e.(primary := r.primary, secondary := r.secondary)
    decreases |ws|
  {
    if ws != [] {
      var k, now := ws[0].Key(), ws[0].NewRow();
      var e1 := e.(secondary := UpdateMarks(e.secondary, IndexesOf(c, ws[0].table), k.primaryKey, Read(e, k, base),
                                            now, commit),
                   primary := PushRow(e.primary, k, commit, now));
      ApplyWritesFrame(e1, c, base, commit, ws[1..]);
    }
  }

  /** Every written key gets one new version; every other chain is as it was. */
  lemma {:induction false} ApplyWritesRows(e: Engine, c: Catalog, base: nat, commit: nat, ws: seq<TxnWrite>,
                                           k: LogicalKey)
    requires DistinctKeys(ws)
    ensures Rows(ApplyWrites(e, c, base, commit, ws).primary, k)
            == (if k in WritesOf(ws) then [RowVersion(commit, WritesOf(ws)[k])] else []) + Rows(e.primary, k)
    ensures k in ApplyWrites(e, c, base, commit, ws).primary <==> k in e.primary || k in WritesOf(ws)
    decreases |ws|
  {
    if ws != [] {
      DistinctRest(ws);
      var w, now := ws[0].Key(), ws[0].NewRow();
      var e1 := e.(secondary := UpdateMarks(e.secondary, IndexesOf(c, ws[0].table), w.primaryKey, Read(e, w, base),
                                            now, commit),
                   primary := PushRow(e.primary, w, commit, now));
      ApplyWritesRows(e1, c, base, commit, ws[1..], k);
      assert [] + Rows(e1.primary, k) == Rows(e1.primary, k);
    }
  }

  // ---------------------------------------------------------------- secondary

  /** The index entry with these value bytes is the one for this cell. */
  predicate IsMark(v: Option<Value>, bytes: Bytes) {
    v.Some? && !v.value.IsNull() && EncodeOrdered(v.value) == bytes
  }

  /** One index entry's chain, once its row's cell went from `was` to `now`. */
  function Followed(vs: seq<SecondaryVersion>, bytes: Bytes, was: Option<Value>, now: Option<Value>,
                    commit: nat): seq<SecondaryVersion> {
    if was == now then vs
    else if IsMark(now, bytes) then [SecondaryVersion(commit, true)] + vs
    else if IsMark(was, bytes) then [SecondaryVersion(commit, false)] + vs
    else vs
  }

  lemma UpdateMarkAt(s: Secondary, x: IndexMeta, pk: Bytes, was: Option<Row>, now: Option<Row>, commit: nat,
                     key: SecondaryKey)
    ensures Marks(UpdateMark(s, x, pk, was, now, commit), key)
            == if key.index == x.id && key.primaryKey == pk
               then Followed(Marks(s, key), key.value, Cell(was, x.column), Cell(now, x.column), commit)
                 else Marks(s, key)
  {
    var o, n := Cell(was, x.column), Cell(now, x.column);
    if o != n && o.Some? && n.Some? {
      PrefixFree(o.value, n.value);
    }
  }

  ghost predicate DistinctIds(xs: seq<IndexMeta>) {
    forall i, j {:trigger xs[i], xs[j]} :: 0 <= i < j < |xs| ==> xs[i].id != xs[j].id
  }

  lemma DistinctIdsRest(xs: seq<IndexMeta>)
    requires DistinctIds(xs) && xs != []
    ensures DistinctIds(xs[1..]) && forall x :: x in xs[1..] ==> x.id != xs[0].id
  {
    var rest := xs[1..];
    forall i, j | 0 <= i < j < |rest| ensures rest[i].id != rest[j].id {
      assert rest[i] == xs[i + 1] && rest[j] == xs[j + 1];
    }
    forall x | x in rest ensures x.id != xs[0].id {
      var i :| 0 <= i < |rest| && rest[i] == x;
      assert xs[i + 1] == x;
    }
  }

  lemma {:induction false} UpdateMarksAt(s: Secondary, xs: seq<IndexMeta>, pk: Bytes, was: Option<Row>,
                                         now: Option<Row>, commit: nat, key: SecondaryKey)
    requires DistinctIds(xs)
    ensures forall x :: x in xs && x.id == key.index && pk == key.primaryKey ==>
              Marks(UpdateMarks(s, xs, pk, was, now, commit), key)
              == Followed(Marks(s, key), key.value, Cell(was, x.column), Cell(now, x.column), commit)
    ensures pk != key.primaryKey || (forall x :: x in xs ==> x.id != key.index) ==>
              Marks(UpdateMarks(s, xs, pk, was, now, commit), key) == Marks(s, key)
    decreases |xs|
  {
    if xs != [] {
      DistinctIdsRest(xs);
      UpdateMarkAt(s, xs[0], pk, was, now, commit, key);
      UpdateMarksAt(UpdateMark(s, xs[0], pk, was, now, commit), xs[1..], pk, was, now, commit, key);
      assert xs[0] in xs;
      forall x | x in xs && x != xs[0] ensures x in xs[1..] {}
    }
  }

  /** Committed indexes are filed under their own ids. */
  ghost predicate FiledById(c: Catalog) {
    forall i {:trigger i in c.indexes} :: i in c.indexes ==> c.indexes[i].id == i
  }

  lemma IndexesOfExact(c: Catalog, table: TableId)
    requires FiledById(c)
    ensures DistinctIds(IndexesOf(c, table))
    ensures forall x :: x in IndexesOf(c, table) <==> x.id in c.indexes && c.indexes[x.id] == x && x.table == table
  {
    var ids := SortedIds(set i | i in c.indexes && c.indexes[i].table == table);
    var xs := IndexesOf(c, table);
    forall n | 0 <= n < |ids| ensures xs[n].id == ids[n] && ids[n] in c.indexes && xs[n] == c.indexes[ids[n]]
      && xs[n].table == table {
      assert ids[n] in ids;
    }
    forall x: IndexMeta | x.id in c.indexes && c.indexes[x.id] == x && x.table == table ensures x in xs {
      assert x.id in ids;
      var n :| 0 <= n < |ids| && ids[n] == x.id;
      assert xs[n] == x;
    }
    forall x | x in xs ensures x.id in c.indexes && c.indexes[x.id] == x && x.table == table {
      var n :| 0 <= n < |xs| && xs[n] == x;
    }
  }

  /** An index entry follows the write to its own row, and no other write. */
  lemma {:induction false} ApplyWritesMarks(e: Engine, c: Catalog, base: nat, commit: nat, ws: seq<TxnWrite>,
                                            key: SecondaryKey)
    requires DistinctKeys(ws) && FiledById(c) && base < commit
    ensures key.index !in c.indexes ==>
              Marks(ApplyWrites(e, c, base, commit, ws).secondary, key) == Marks(e.secondary, key)
    ensures key.index in c.indexes ==>
              var x := c.indexes[key.index];
              var k := LogicalKey(x.table, key.primaryKey);
              Marks(ApplyWrites(e, c, base, commit, ws).secondary, key)
              == if k in WritesOf(ws)
                 then Followed(Marks(e.secondary, key), key.value, Cell(Read(e, k, base), x.column),
                               Cell(WritesOf(ws)[k], x.column), commit)
                 else Marks(e.secondary, key)
    decreases |ws|
  {
    if ws != [] {
      DistinctRest(ws);
      var w, now := ws[0].Key(), ws[0].NewRow();
      var xs := IndexesOf(c, ws[0].table);
      IndexesOfExact(c, ws[0].table);
      var s1 := UpdateMarks(e.secondary, xs, w.primaryKey, Read(e, w, base), now, commit);
      var e1 := e.(secondary := s1, primary := PushRow(e.primary, w, commit, now));
      UpdateMarksAt(e.secondary, xs, w.primaryKey, Read(e, w, base), now, commit, key);
      ApplyWritesMarks(e1, c, base, commit, ws[1..], key);
      if key.index in c.indexes {
        var x := c.indexes[key.index];
        var k := LogicalKey(x.table, key.primaryKey);
        assert x.id == key.index;
        if k != w {
          assert Rows(e1.primary, k) == Rows(e.primary, k);
          assert w.primaryKey == key.primaryKey ==> x !in xs;
          assert forall y :: y in xs && y.id == key.index ==> y == x;
        } else {
          assert x in xs;
        }
      }
    }
  }

  // ------------------------------------------------------------------- backfill

  lemma {:induction false} BackfillKeysAt(s: Secondary, p: Primary, x: IndexMeta, pks: seq<Bytes>, commit: nat,
                                          key: SecondaryKey)
    requires Ascending(pks)
    ensures Marks(BackfillKeys(s, p, x, pks, commit), key)
            == (if key.index == x.id && key.primaryKey in pks
                   && IsMark(Cell(VisibleRow(Rows(p, LogicalKey(x.table, key.primaryKey)), commit), x.column),
                             key.value)
                then [SecondaryVersion(commit, true)] else []) + Marks(s, key)
    decreases |pks|
  {
    if pks != [] {
      var v := Cell(VisibleRow(Rows(p, LogicalKey(x.table, pks[0])), commit), x.column);
      var s1 := if v.Some? && !v.value.IsNull() then PushMark(s, x.id, v.value, pks[0], commit, true) else s;
      var rest := pks[1..];
      forall i, j | 0 <= i < j < |rest| ensures Less(rest[i], rest[j]) {
        assert rest[i] == pks[i + 1] && rest[j] == pks[j + 1];
      }
      forall i | 0 <= i < |rest| ensures rest[i] != pks[0] {
        assert rest[i] == pks[i + 1];
        LessIrreflexive(pks[0]);
      }
      BackfillKeysAt(s1, p, x, rest, commit, key);
    } else {
      assert [] + Marks(s, key) == Marks(s, key);
    }
  }

  lemma TableKeysExact(p: Primary, table: TableId, pk: Bytes)
    ensures pk in TableKeys(p, table) <==> LogicalKey(table, pk) in p
  {
    assert LogicalKey(table, pk) in p ==>
             LogicalKey(table, pk).primaryKey in (set k | k in p && k.table == table :: k.primaryKey);
  }

  /** A new index holds exactly the cells visible at its creation. */
  lemma {:induction false} BackfillAt(s: Secondary, p: Primary, xs: seq<IndexMeta>, commit: nat, key: SecondaryKey)
    requires DistinctIds(xs)
    ensures (forall x :: x in xs ==> x.id != key.index) ==> Marks(Backfill(s, p, xs, commit), key) == Marks(s, key)
    ensures forall x :: x in xs && x.id == key.index ==>
              Marks(Backfill(s, p, xs, commit), key)
              == (if IsMark(Cell(VisibleRow(Rows(p, LogicalKey(x.table, key.primaryKey)), commit), x.column), key.value)
                  then [SecondaryVersion(commit, true)] else []) + Marks(s, key)
    decreases |xs|
  {
    if xs != [] {
      DistinctIdsRest(xs);
      var pks := TableKeys(p, xs[0].table);
      BackfillKeysAt(s, p, xs[0], pks, commit, key);
      TableKeysExact(p, xs[0].table, key.primaryKey);
      BackfillAt(BackfillKeys(s, p, xs[0], pks, commit), p, xs[1..], commit, key);
      assert xs[0] in xs;
      assert [] + Marks(s, key) == Marks(s, key);
      forall x | x in xs && x != xs[0] ensures x in xs[1..] {}
    }
  }

  // --------------------------------------------------------------------- catalog

  /** A successful catalog change keeps old indexes and adds exactly the new ones. */
  lemma {:induction false} CreateAllIndexes(c: Catalog, ms: seq<CatalogMutation>)
    requires FiledById(c) && CreateAll(c, ms).Some?
    ensures var d, xs := CreateAll(c, ms).value, NewIndexes(ms);
            && FiledById(d) && DistinctIds(xs)
            && (forall i :: i in c.indexes ==> i in d.indexes && d.indexes[i] == c.indexes[i])
            && (forall x :: x in xs ==> x.id !in c.indexes && x.id in d.indexes && d.indexes[x.id] == x)
            && (forall i :: i in d.indexes ==> i in c.indexes || d.indexes[i] in xs)
    decreases |ms|
  {
    hide SchemaOk;
    if ms != [] {
      var c1 := CreateOne(c, ms[0]).value;
      CreateAllIndexes(c1, ms[1..]);
      var xs, rest := NewIndexes(ms), NewIndexes(ms[1..]);
      if ms[0].CreateIndex? {
        var x := ms[0].indexMeta;
        assert xs == [x] + rest;
        assert x.id in c1.indexes;
        OneMoreIndex(x, rest);
      } else {
        assert xs == rest by { assert [] + rest == rest; }
      }
    }
  }

  lemma OneMoreIndex(x: IndexMeta, rest: seq<IndexMeta>)
    requires DistinctIds(rest) && forall y :: y in rest ==> y.id != x.id
    ensures DistinctIds([x] + rest) && forall y :: y in [x] + rest <==> y == x || y in rest
  {
    var xs := [x] + rest;
    forall i, j | 0 <= i < j < |xs| ensures xs[i].id != xs[j].id {
      assert xs[j] == rest[j - 1] && rest[j - 1] in rest;
      assert i > 0 ==> xs[i] == rest[i - 1];
    }
  }
}
