/** Sorted entry lists: what a leaf holds, and what the whole tree means. */
module BTreeEntries {
  import opened Wrappers
  import opened Ordering

  const PAGE_SIZE: nat := 4096
  const NODE_DATA: nat := 96
  const CAPACITY: nat := PAGE_SIZE - NODE_DATA

  datatype Entry = Entry(key: Bytes, value: Bytes)

  /** Encoded size of one leaf entry. */
  function EntrySize(e: Entry): nat {
    4 + |e.key| + |e.value|
  }

  function EntriesSize(s: seq<Entry>): nat {
    if s == [] then 0 else EntrySize(s[0]) + EntriesSize(s[1..])
  }

  lemma {:induction false} EntriesSizeConcat(a: seq<Entry>, b: seq<Entry>)
    ensures EntriesSize(a + b) == EntriesSize(a) + EntriesSize(b)
    decreases |a|
  {
    if a == [] {
      assert a + b == b;
    } else {
      assert (a + b)[1..] == a[1..] + b;
      EntriesSizeConcat(a[1..], b);
    }
  }

  ghost predicate SortedEntries(s: seq<Entry>) {
    forall i, j {:trigger s[i], s[j]} :: 0 <= i < j < |s| ==> Less(s[i].key, s[j].key)
  }

  ghost predicate AllBelow(s: seq<Entry>, key: Bytes) {
    forall e {:trigger e in s} :: e in s ==> Less(e.key, key)
  }

  ghost predicate AllAbove(s: seq<Entry>, key: Bytes) {
    forall e {:trigger e in s} :: e in s ==> Less(key, e.key)
  }

  // ------------------------------------------------------- operations on lists

  function Upsert(s: seq<Entry>, key: Bytes, value: Bytes): seq<Entry> {
    if s == [] || Less(key, s[0].key) then [Entry(key, value)] + s
    else if s[0].key == key then [Entry(key, value)] + s[1..]
    else [s[0]] + Upsert(s[1..], key, value)
  }

  function Without(s: seq<Entry>, key: Bytes): seq<Entry> {
    if s == [] then []
    else if s[0].key == key then s[1..]
    else [s[0]] + Without(s[1..], key)
  }

  function Lookup(s: seq<Entry>, key: Bytes): Option<Bytes> {
    if s == [] then None
    else if s[0].key == key then Some(s[0].value)
    else Lookup(s[1..], key)
  }

  predicate Within(e: Entry, start: Bytes, end: Option<Bytes>) {
    !Less(e.key, start) && (end.Some? ==> Less(e.key, end.value))
  }

  /** The entries of the half-open range, in order. */
  function InRange(s: seq<Entry>, start: Bytes, end: Option<Bytes>): seq<Entry> {
    if s == [] then []
    else (if Within(s[0], start, end) then [s[0]] else []) + InRange(s[1..], start, end)
  }

  /** The map a sorted list stands for. */
  function Contents(s: seq<Entry>): map<Bytes, Bytes> {
    if s == [] then map[] else Contents(s[1..])[s[0].key := s[0].value]
  }

  // -------------------------------------------------------------- locality

  lemma Tail<T>(a: seq<T>, b: seq<T>)
    requires a != []
    ensures a + b != [] && (a + b)[0] == a[0] && (a + b)[1..] == a[1..] + b && a == [a[0]] + a[1..]
  {
  }

  lemma Associate<T>(a: seq<T>, b: seq<T>, c: seq<T>)
    ensures a + (b + c) == a + b + c
  {
  }

  lemma HeadBelow(a: seq<Entry>, key: Bytes)
    requires a != [] && AllBelow(a, key)
    ensures a[0].key != key && !Less(key, a[0].key) && AllBelow(a[1..], key)
  {
    assert a[0] in a && forall e :: e in a[1..] ==> e in a;
    LessIrreflexive(key);
    if Less(key, a[0].key) {
      LessTransitive(key, a[0].key, key);
    }
  }

  lemma HeadAbove(c: seq<Entry>, key: Bytes)
    requires c != [] && AllAbove(c, key)
    ensures c[0].key != key && Less(key, c[0].key) && AllAbove(c[1..], key)
  {
    assert c[0] in c && forall e :: e in c[1..] ==> e in c;
    LessIrreflexive(key);
  }

  lemma {:induction false} UpsertAfter(a: seq<Entry>, s: seq<Entry>, key: Bytes, value: Bytes)
    requires AllBelow(a, key)
    ensures Upsert(a + s, key, value) == a + Upsert(s, key, value)
    decreases |a|
  {
    hide AllBelow, Less;
    if a == [] {
      assert a + s == s && a + Upsert(s, key, value) == Upsert(s, key, value);
    } else {
      HeadBelow(a, key);
      Tail(a, s);
      UpsertAfter(a[1..], s, key, value);
      Associate([a[0]], a[1..], Upsert(s, key, value));
    }
  }

  lemma {:induction false} UpsertBefore(s: seq<Entry>, c: seq<Entry>, key: Bytes, value: Bytes)
    requires AllAbove(c, key)
    ensures Upsert(s + c, key, value) == Upsert(s, key, value) + c
    decreases |s|
  {
    hide AllAbove, Less;
    if s == [] {
      assert s + c == c && Upsert(s, key, value) == [Entry(key, value)] + s == [Entry(key, value)];
      if c != [] {
        HeadAbove(c, key);
      }
    } else {
      Tail(s, c);
      if Less(key, s[0].key) {
        Associate([Entry(key, value)], s, c);
      } else if s[0].key == key {
        Associate([Entry(key, value)], s[1..], c);
      } else {
        UpsertBefore(s[1..], c, key, value);
        Associate([s[0]], Upsert(s[1..], key, value), c);
      }
    }
  }

  /** Writing a key changes only the part of a sorted list the key belongs to. */
  lemma UpsertMiddle(a: seq<Entry>, s: seq<Entry>, c: seq<Entry>, key: Bytes, value: Bytes)
    requires AllBelow(a, key) && AllAbove(c, key)
    ensures Upsert(a + s + c, key, value) == a + Upsert(s, key, value) + c
  {
    assert a + s + c == a + (s + c);
    UpsertAfter(a, s + c, key, value);
    UpsertBefore(s, c, key, value);
  }

  lemma {:induction false} WithoutAfter(a: seq<Entry>, s: seq<Entry>, key: Bytes)
    requires AllBelow(a, key)
    ensures Without(a + s, key) == a + Without(s, key) && Lookup(a + s, key) == Lookup(s, key)
    decreases |a|
  {
    hide AllBelow, Less;
    if a == [] {
      assert a + s == s && a + Without(s, key) == Without(s, key);
    } else {
      HeadBelow(a, key);
      Tail(a, s);
      WithoutAfter(a[1..], s, key);
      Associate([a[0]], a[1..], Without(s, key));
    }
  }

  lemma {:induction false} NotAbove(c: seq<Entry>, key: Bytes)
    requires AllAbove(c, key)
    ensures Without(c, key) == c && Lookup(c, key) == None
    decreases |c|
  {
    hide AllAbove, Less;
    if c != [] {
      HeadAbove(c, key);
      NotAbove(c[1..], key);
      Tail(c, []);
    }
  }

  lemma {:induction false} WithoutBefore(s: seq<Entry>, c: seq<Entry>, key: Bytes)
    requires AllAbove(c, key)
    ensures Without(s + c, key) == Without(s, key) + c && Lookup(s + c, key) == Lookup(s, key)
    decreases |s|
  {
    hide AllAbove, Less;
    if s == [] {
      assert s + c == c && Without(s, key) + c == c;
      NotAbove(c, key);
    } else {
      Tail(s, c);
      WithoutBefore(s[1..], c, key);
      Associate([s[0]], Without(s[1..], key), c);
    }
  }

  lemma WithoutMiddle(a: seq<Entry>, s: seq<Entry>, c: seq<Entry>, key: Bytes)
    requires AllBelow(a, key) && AllAbove(c, key)
    ensures Without(a + s + c, key) == a + Without(s, key) + c
    ensures Lookup(a + s + c, key) == Lookup(s, key)
  {
    assert a + s + c == a + (s + c);
    WithoutAfter(a, s + c, key);
    WithoutBefore(s, c, key);
  }

  lemma {:induction false} InRangeConcat(a: seq<Entry>, b: seq<Entry>, start: Bytes, end: Option<Bytes>)
    ensures InRange(a + b, start, end) == InRange(a, start, end) + InRange(b, start, end)
    decreases |a|
  {
    hide Within;
    if a == [] {
      assert a + b == b && InRange(a, start, end) + InRange(b, start, end) == InRange(b, start, end);
    } else {
      Tail(a, b);
      InRangeConcat(a[1..], b, start, end);
      var head := if Within(a[0], start, end) then [a[0]] else [];
      Associate(head, InRange(a[1..], start, end), InRange(b, start, end));
    }
  }

  lemma {:induction false} NoneWithin(s: seq<Entry>, start: Bytes, end: Option<Bytes>)
    requires forall e :: e in s ==> !Within(e, start, end)
    ensures InRange(s, start, end) == []
    decreases |s|
  {
    if s != [] {
      assert s[0] in s;
      assert forall e :: e in s[1..] ==> e in s;
      NoneWithin(s[1..], start, end);
    }
  }

  // ------------------------------------------------- position in a sorted list

  lemma CutReplaced<T>(s: seq<T>, i: nat, x: T)
    requires i < |s|
    ensures s == s[..i] + s[i..] && s[i..][1..] == s[i + 1..] && s[..i] + ([x] + s[i + 1..]) == s[i := x]
  {
  }

  lemma UpsertAt(s: seq<Entry>, i: nat, key: Bytes, value: Bytes)
    requires i <= |s| && AllBelow(s[..i], key)
    requires i < |s| ==> s[i].key == key || Less(key, s[i].key)
    ensures i < |s| && s[i].key == key ==> Upsert(s, key, value) == s[i := Entry(key, value)]
                                           && Lookup(s, key) == Some(s[i].value)
    ensures !(i < |s| && s[i].key == key) ==> Upsert(s, key, value) == s[..i] + [Entry(key, value)] + s[i..]
  {
    hide AllBelow, Less;
    assert s == s[..i] + s[i..];
    UpsertAfter(s[..i], s[i..], key, value);
    WithoutAfter(s[..i], s[i..], key);
    if i < |s| && s[i].key == key {
      LessIrreflexive(key);
      CutReplaced(s, i, Entry(key, value));
    } else {
      Associate(s[..i], [Entry(key, value)], s[i..]);
    }
  }

  lemma WithoutAt(s: seq<Entry>, i: nat, key: Bytes)
    requires i < |s| && AllBelow(s[..i], key) && s[i].key == key
    ensures Without(s, key) == s[..i] + s[i + 1..] && Lookup(s, key) == Some(s[i].value)
  {
    assert s == s[..i] + s[i..];
    WithoutAfter(s[..i], s[i..], key);
  }

  lemma AbsentAt(s: seq<Entry>, i: nat, key: Bytes)
    requires i <= |s| && AllBelow(s[..i], key) && AllAbove(s[i..], key)
    ensures Without(s, key) == s && Lookup(s, key) == None
  {
    assert s == s[..i] + [] + s[i..];
    WithoutMiddle(s[..i], [], s[i..], key);
  }

  // --------------------------------------------------------------- sortedness

  lemma SortedParts(a: seq<Entry>, b: seq<Entry>)
    requires SortedEntries(a + b)
    ensures SortedEntries(a) && SortedEntries(b)
    ensures forall x, y {:trigger x in a, y in b} :: x in a && y in b ==> Less(x.key, y.key)
  {
    var s := a + b;
    forall i, j | 0 <= i < j < |b| ensures Less(b[i].key, b[j].key) {
      assert b[i] == s[|a| + i] && b[j] == s[|a| + j];
    }
    forall i, j | 0 <= i < j < |a| ensures Less(a[i].key, a[j].key) {
      assert a[i] == s[i] && a[j] == s[j];
    }
    forall x, y | x in a && y in b ensures Less(x.key, y.key) {
      var i :| 0 <= i < |a| && a[i] == x;
      var j :| 0 <= j < |b| && b[j] == y;
      assert x == s[i] && y == s[|a| + j];
    }
  }

  lemma SortedJoin(a: seq<Entry>, b: seq<Entry>)
    requires SortedEntries(a) && SortedEntries(b)
    requires forall x, y {:trigger x in a, y in b} :: x in a && y in b ==> Less(x.key, y.key)
    ensures SortedEntries(a + b)
  {
    var s := a + b;
    forall i, j | 0 <= i < j < |s| ensures Less(s[i].key, s[j].key) {
      if i < |a| <= j {
        assert a[i] in a && b[j - |a|] in b;
      }
    }
  }

  lemma {:induction false} UpsertSorted(s: seq<Entry>, key: Bytes, value: Bytes)
    requires SortedEntries(s)
    ensures SortedEntries(Upsert(s, key, value))
    ensures forall e :: e in Upsert(s, key, value) ==> e in s || e == Entry(key, value)
    decreases |s|
  {
    if s == [] {
    } else {
      var rest := s[1..];
      assert s == [s[0]] + rest;
      SortedParts([s[0]], rest);
      assert s[0] in [s[0]];
      LessTotal(key, s[0].key);
      if Less(key, s[0].key) {
        forall y | y in s ensures Less(key, y.key) {
          if y != s[0] {
            LessTransitive(key, s[0].key, y.key);
          }
        }
        SortedJoin([Entry(key, value)], s);
      } else if s[0].key == key {
        SortedJoin([Entry(key, value)], rest);
      } else {
        UpsertSorted(rest, key, value);
        SortedJoin([s[0]], Upsert(rest, key, value));
      }
    }
  }

  lemma {:induction false} WithoutSorted(s: seq<Entry>, key: Bytes)
    requires SortedEntries(s)
    ensures SortedEntries(Without(s, key)) && forall e :: e in Without(s, key) ==> e in s
    decreases |s|
  {
    if s != [] {
      var rest := s[1..];
      assert s == [s[0]] + rest;
      SortedParts([s[0]], rest);
      assert s[0] in [s[0]];
      if s[0].key != key {
        WithoutSorted(rest, key);
        SortedJoin([s[0]], Without(rest, key));
      }
    }
  }

  // ------------------------------------------------------------ the map behind

  lemma {:induction false} ContentsLookup(s: seq<Entry>, key: Bytes)
    ensures Lookup(s, key) == if key in Contents(s) then Some(Contents(s)[key]) else None
    decreases |s|
  {
    if s != [] {
      ContentsLookup(s[1..], key);
    }
  }

  lemma {:induction false} AbsentKey(s: seq<Entry>, key: Bytes)
    requires AllAbove(s, key)
    ensures key !in Contents(s)
    decreases |s|
  {
    if s != [] {
      assert s[0] in s;
      LessIrreflexive(key);
      assert forall e :: e in s[1..] ==> e in s;
      AbsentKey(s[1..], key);
    }
  }

  /** On sorted lists `Upsert` is map update, `Without` is map removal. */
  lemma {:induction false} UpsertIsUpdate(s: seq<Entry>, key: Bytes, value: Bytes)
    requires SortedEntries(s)
    ensures Contents(Upsert(s, key, value)) == Contents(s)[key := value]
    decreases |s|
  {
    if s != [] && !Less(key, s[0].key) {
      SortedParts([s[0]], s[1..]);
      assert s == [s[0]] + s[1..];
      if s[0].key != key {
        UpsertIsUpdate(s[1..], key, value);
      } else {
        assert ([Entry(key, value)] + s[1..])[1..] == s[1..];
      }
    } else {
      assert ([Entry(key, value)] + s)[1..] == s;
    }
  }

  lemma {:induction false} WithoutIsRemoval(s: seq<Entry>, key: Bytes)
    requires SortedEntries(s)
    ensures Contents(Without(s, key)) == Contents(s) - {key}
    decreases |s|
  {
    if s != [] {
      assert s == [s[0]] + s[1..];
      SortedParts([s[0]], s[1..]);
      assert s[0] in [s[0]];
      WithoutIsRemoval(s[1..], key);
      if s[0].key == key {
        assert AllAbove(s[1..], key);
        AbsentKey(s[1..], key);
        assert Contents(s) - {key} == Contents(s[1..]);
      } else {
        assert ([s[0]] + Without(s[1..], key))[1..] == Without(s[1..], key);
      }
    }
  }
}
