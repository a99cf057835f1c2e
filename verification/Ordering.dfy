/** Lexicographic byte order and the ascending enumeration of finite sets, the
    iteration order of ordered maps and sets. */
module Ordering {
  newtype byte = x: int | 0 <= x < 256

  type Bytes = seq<byte>

  predicate Less(a: Bytes, b: Bytes) {
    b != [] && (a == [] || a[0] < b[0] || (a[0] == b[0] && Less(a[1..], b[1..])))
  }

  predicate LessEq(a: Bytes, b: Bytes) {
    a == b || Less(a, b)
  }

  lemma {:induction false} LessIrreflexive(a: Bytes)
    ensures !Less(a, a)
  {
    if a != [] {
      LessIrreflexive(a[1..]);
    }
  }

  lemma {:induction false} LessTransitive(a: Bytes, b: Bytes, c: Bytes)
    requires Less(a, b) && Less(b, c)
    ensures Less(a, c)
  {
    if a != [] && a[0] == b[0] && b[0] == c[0] {
      LessTransitive(a[1..], b[1..], c[1..]);
    }
  }

  lemma {:induction false} LessTotal(a: Bytes, b: Bytes)
    ensures a == b || Less(a, b) || Less(b, a)
  {
    if a != [] && b != [] && a[0] == b[0] {
      LessTotal(a[1..], b[1..]);
      assert a == [a[0]] + a[1..] && b == [b[0]] + b[1..];
    }
  }

  predicate IsLeast(s: set<Bytes>, m: Bytes) {
    m in s && forall x :: x in s ==> LessEq(m, x)
  }

  lemma {:induction false} LeastExists(s: set<Bytes>)
    requires s != {}
    ensures exists m :: IsLeast(s, m)
    decreases |s|
  {
    var a :| a in s;
    var rest := s - {a};
    if rest == {} {
      assert s == {a};
      assert IsLeast(s, a);
    } else {
      LeastExists(rest);
      var m :| IsLeast(rest, m);
      LessTotal(a, m);
      var low := if Less(a, m) then a else m;
      forall x | x in s ensures LessEq(low, x) {
        assert x == a || x in rest;
        if x != a && x != m && low == a {
          LessTransitive(a, m, x);
        }
      }
      assert IsLeast(s, low);
    }
  }

  lemma LeastUnique(s: set<Bytes>, m: Bytes, n: Bytes)
    requires IsLeast(s, m) && IsLeast(s, n)
    ensures m == n
  {
    if m != n {
      LessTransitive(m, n, m);
      LessIrreflexive(m);
    }
  }

  /** The least member of a non-empty set of byte strings. */
  function Least(s: set<Bytes>): (m: Bytes)
    requires s != {}
    ensures IsLeast(s, m)
  {
    LeastExists(s);
    assert forall m, n {:trigger IsLeast(s, m), IsLeast(s, n)} :: IsLeast(s, m) && IsLeast(s, n) ==> m == n by {
      forall m, n | IsLeast(s, m) && IsLeast(s, n) ensures m == n {
        LeastUnique(s, m, n);
      }
    }
    var m :| IsLeast(s, m);
    m
  }

  predicate Ascending(r: seq<Bytes>) {
    forall i, j :: 0 <= i < j < |r| ==> Less(r[i], r[j])
  }

  /** The members of `s` in ascending order. */
  function Sorted(s: set<Bytes>): (r: seq<Bytes>)
    ensures Ascending(r) && (forall x :: x in r <==> x in s)
    decreases |s|
  {
    if s == {} then [] else
      var m := Least(s);
      var rest := Sorted(s - {m});
      assert forall x :: x in rest ==> Less(m, x);
      [m] + rest
  }

  predicate IsLeastId(s: set<nat>, m: nat) {
    m in s && forall x :: x in s ==> m <= x
  }

  lemma {:induction false} LeastIdExists(s: set<nat>)
    requires s != {}
    ensures exists m :: IsLeastId(s, m)
    decreases |s|
  {
    var a :| a in s;
    var rest := s - {a};
    if rest == {} {
      assert s == {a};
      assert IsLeastId(s, a);
    } else {
      LeastIdExists(rest);
      var m :| IsLeastId(rest, m);
      var low := if a < m then a else m;
      forall x | x in s ensures low <= x {
        assert x == a || x in rest;
      }
      assert IsLeastId(s, low);
    }
  }

  function LeastId(s: set<nat>): (m: nat)
    requires s != {}
    ensures IsLeastId(s, m)
  {
    LeastIdExists(s);
    var m :| IsLeastId(s, m);
    m
  }

  /** The members of a set of identifiers in ascending order. */
  function SortedIds(s: set<nat>): (r: seq<nat>)
    ensures (forall i, j :: 0 <= i < j < |r| ==> r[i] < r[j]) && (forall x :: x in r <==> x in s)
    decreases |s|
  {
    if s == {} then [] else
      var m := LeastId(s);
      var rest := SortedIds(s - {m});
      assert forall x :: x in rest ==> m < x;
      [m] + rest
  }
}
