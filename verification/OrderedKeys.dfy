/** SQL values and the encoding whose byte order is their order. */
module OrderedKeys {
  import opened Wrappers
  import opened Ordering

  const SIGN: int := 0x8000_0000_0000_0000
  const WORD: int := 0x1_0000_0000_0000_0000

  newtype i64 = x: int | -0x8000_0000_0000_0000 <= x < 0x8000_0000_0000_0000
  newtype u64 = x: int | 0 <= x < 0x1_0000_0000_0000_0000

  /** Text stands for its UTF-8 bytes, which is how strings are compared. */
  datatype Value = Null | Int64(number: i64) | Bool(flag: bool) | Text(utf8: Bytes) | Blob(data: Bytes) {
    predicate IsNull() {
      Null?
    }

    function TypeTag(): nat {
      match this
      case Null => 0
      case Int64(_) => 1
      case Bool(_) => 2
      case Text(_) => 3
      case Blob(_) => 4
    }
  }

  datatype Order = Lesser | Equal | Greater

  function CompareBytes(a: Bytes, b: Bytes): Order {
    if a == b then Equal else if Less(a, b) then Lesser else Greater
  }

  /** Comparison inside one type; nothing compares with null, types do not mix. */
  function CheckedCmp(a: Value, b: Value): Result<Option<Order>, ()> {
    match (a, b)
    case (Null, _) => Ok(None)
    case (_, Null) => Ok(None)
    case (Int64(x), Int64(y)) => Ok(Some(if x < y then Lesser else if x == y then Equal else Greater))
    case (Bool(x), Bool(y)) => Ok(Some(if x == y then Equal else if y then Lesser else Greater))
    case (Text(x), Text(y)) => Ok(Some(CompareBytes(x, y)))
    case (Blob(x), Blob(y)) => Ok(Some(CompareBytes(x, y)))
    case _ => Err(())
  }

  // -------------------------------------------------------------------- encoding

  function Power(n: nat): nat {
    if n == 0 then 1 else 256 * Power(n - 1)
  }

  /** The low `n` bytes of a number, most significant first. */
  function BigEndian(x: nat, n: nat): Bytes
    requires x < Power(n)
  {
    if n == 0 then []
    else
      assert x < 256 * Power(n - 1);
      DigitBounds(x, Power(n - 1));
      [(x / Power(n - 1)) as byte] + BigEndian(x % Power(n - 1), n - 1)
  }

  lemma DigitBounds(x: nat, p: nat)
    requires p > 0 && x < 256 * p
    ensures 0 <= x / p < 256 && 0 <= x % p < p
  {
  }

  function Memcomparable(s: Bytes): Bytes {
    if s == [] then [0, 0]
    else (if s[0] == 0 then [0, 0xff] else [s[0]]) + Memcomparable(s[1..])
  }

  lemma EightBytes()
    ensures Power(8) == WORD
  {
    assert Power(1) == 256 && Power(2) == 0x1_0000 && Power(4) == 0x1_0000_0000 by {
      assert Power(3) == 0x100_0000;
    }
    assert Power(5) == 0x100_0000_0000 && Power(6) == 0x1_0000_0000_0000;
    assert Power(7) == 0x100_0000_0000_0000;
  }

  function Word(x: u64): Bytes {
    EightBytes();
    BigEndian(x as nat, 8)
  }

  function EncodeOrdered(v: Value): Bytes {
    match v
    case Null => [0]
    case Int64(x) => [1] + Word((x as int + SIGN) as u64)
    case Bool(flag) => if flag then [3] else [2]
    case Text(s) => [4] + Memcomparable(s)
    case Blob(s) => [5] + Memcomparable(s)
  }

  function Complement(x: u64): u64 {
    (WORD - 1 - x as int) as u64
  }

  function EncodeMvccKey(table: u64, key: Value, commit: u64): Bytes {
    Word(table) + EncodeOrdered(key) + Word(Complement(commit))
  }

  /** The encoder itself: one byte at a time into an output buffer. */
  method EncodeMemcomparable(value: Bytes, output: Bytes) returns (encoded: Bytes)
    ensures encoded == output + Memcomparable(value)
  {
    encoded := output;
    var i := 0;
    assert value[0..] == value;
    while i < |value|
      invariant 0 <= i <= |value|
      invariant encoded + Memcomparable(value[i..]) == output + Memcomparable(value)
    {
      assert value[i..][1..] == value[i + 1..];
      if value[i] == 0 {
        encoded := encoded + [0, 0xff];
      } else {
        encoded := encoded + [value[i]];
      }
      i := i + 1;
    }
    encoded := encoded + [0, 0];
  }

  // ----------------------------------------------------------------- byte strings

  /** Neither is a proper prefix of the other. */
  predicate Unprefixed(a: Bytes, b: Bytes) {
    a <= b || b <= a ==> a == b
  }

  /** A common first byte does not matter. */
  lemma SameHead(h: byte, a: Bytes, b: Bytes)
    ensures Less([h] + a, [h] + b) <==> Less(a, b)
    ensures Unprefixed([h] + a, [h] + b) <==> Unprefixed(a, b)
  {
    var x, y := [h] + a, [h] + b;
    assert x[1..] == a && y[1..] == b;
    assert x <= y <==> a <= b by {
      if x <= y {
        assert a == x[1..] && forall i :: 0 <= i < |a| ==> a[i] == x[i + 1] == y[i + 1] == b[i];
      }
    }
    assert y <= x <==> b <= a by {
      if y <= x {
        assert forall i :: 0 <= i < |b| ==> b[i] == y[i + 1] == x[i + 1] == a[i];
      }
    }
    assert x == y <==> a == b;
  }

  /** Different first bytes decide. */
  lemma DifferentHead(g: byte, h: byte, a: Bytes, b: Bytes)
    requires g != h
    ensures Less([g] + a, [h] + b) <==> g < h
    ensures Unprefixed([g] + a, [h] + b)
  {
    assert ([g] + a)[0] == g && ([h] + b)[0] == h;
  }

  /** With prefix-free heads, concatenations compare head first, then tail. */
  lemma {:induction false} HeadThenTail(a: Bytes, b: Bytes, x: Bytes, y: Bytes)
    requires Unprefixed(a, b)
    ensures a == b ==> (Less(a + x, b + y) <==> Less(x, y))
    ensures a != b ==> (Less(a + x, b + y) <==> Less(a, b))
    ensures Unprefixed(x, y) || a != b ==> Unprefixed(a + x, b + y)
    decreases |a|
  {
    if a == [] {
      assert a <= b && b == [];
      assert a + x == x && b + y == y;
    } else {
      assert b != [] by { assert b == [] ==> b <= a; }
      var c, d := a[1..], b[1..];
      assert a == [a[0]] + c && b == [b[0]] + d;
      assert a + x == [a[0]] + (c + x) && b + y == [b[0]] + (d + y);
      if a[0] == b[0] {
        SameHead(a[0], c, d);
        SameHead(a[0], c + x, d + y);
        HeadThenTail(c, d, x, y);
      } else {
        DifferentHead(a[0], b[0], c, d);
        DifferentHead(a[0], b[0], c + x, d + y);
      }
    }
  }

  // ------------------------------------------------------------------ word order

  lemma DigitsCompare(x: nat, y: nat, p: nat)
    requires p > 0
    ensures x / p < y / p ==> x < y
    ensures x / p == y / p ==> (x < y <==> x % p < y % p)
  {
    assert x == p * (x / p) + x % p && y == p * (y / p) + y % p;
    if x / p < y / p {
      assert p * (x / p) + p <= p * (y / p) by {
        assert p * (x / p + 1) <= p * (y / p);
      }
    }
  }

  lemma {:induction false} BigEndianOrder(x: nat, y: nat, n: nat)
    requires x < Power(n) && y < Power(n)
    ensures |BigEndian(x, n)| == n
    ensures Less(BigEndian(x, n), BigEndian(y, n)) <==> x < y
    ensures Unprefixed(BigEndian(x, n), BigEndian(y, n)) && (BigEndian(x, n) == BigEndian(y, n) <==> x == y)
    decreases n
  {
    if n > 0 {
      var p := Power(n - 1);
      assert Power(n) == 256 * p;
      DigitBounds(x, p);
      DigitBounds(y, p);
      var a, b := (x / p) as byte, (y / p) as byte;
      var c, d := BigEndian(x % p, n - 1), BigEndian(y % p, n - 1);
      BigEndianOrder(x % p, y % p, n - 1);
      DigitsCompare(x, y, p);
      DigitsCompare(y, x, p);
      assert BigEndian(x, n) == [a] + c && BigEndian(y, n) == [b] + d;
      if a == b {
        SameHead(a, c, d);
      } else {
        DifferentHead(a, b, c, d);
      }
    }
  }

  lemma WordOrder(x: u64, y: u64)
    ensures Less(Word(x), Word(y)) <==> x < y
    ensures Unprefixed(Word(x), Word(y)) && (Word(x) == Word(y) <==> x == y)
  {
    EightBytes();
    BigEndianOrder(x as nat, y as nat, 8);
  }

  /** Escaping keeps order and makes encodings prefix-free. */
  lemma {:induction false} MemcomparableOrder(a: Bytes, b: Bytes)
    ensures Less(Memcomparable(a), Memcomparable(b)) <==> Less(a, b)
    ensures Unprefixed(Memcomparable(a), Memcomparable(b)) && (Memcomparable(a) == Memcomparable(b) <==> a == b)
    decreases |a|
  {
    var x, y := Memcomparable(a), Memcomparable(b);
    if a == [] && b == [] {
      LessIrreflexive(x);
    } else if a == [] {
      EmptyFirst(b);
    } else if b == [] {
      EmptyFirst(a);
      Asymmetric(y, x);
    } else if a[0] == b[0] {
      MemcomparableOrder(a[1..], b[1..]);
      assert a == [a[0]] + a[1..] && b == [b[0]] + b[1..];
      var c, d := Memcomparable(a[1..]), Memcomparable(b[1..]);
      if a[0] == 0 {
        assert x == [0] + ([0xff] + c) && y == [0] + ([0xff] + d);
        SameHead(0, [0xff] + c, [0xff] + d);
        SameHead(0xff, c, d);
      } else {
        SameHead(a[0], c, d);
      }
    } else {
      assert x == [x[0]] + x[1..] && y == [y[0]] + y[1..];
      assert x[0] == a[0] && y[0] == b[0];
      DifferentHead(x[0], y[0], x[1..], y[1..]);
    }
  }

  lemma Asymmetric(a: Bytes, b: Bytes)
    requires Less(a, b)
    ensures !Less(b, a)
  {
    if Less(b, a) {
      LessTransitive(a, b, a);
      LessIrreflexive(a);
    }
  }

  /** The empty string comes first and is no prefix of another encoding. */
  lemma EmptyFirst(b: Bytes)
    requires b != []
    ensures Less(Memcomparable([]), Memcomparable(b)) && Unprefixed(Memcomparable([]), Memcomparable(b))
    ensures Memcomparable([]) != Memcomparable(b) && Unprefixed(Memcomparable(b), Memcomparable([]))
  {
    var y := Memcomparable(b);
    assert Memcomparable([]) == [0] + [0];
    if b[0] == 0 {
      var rest := Memcomparable(b[1..]);
      assert y == [0] + ([0xff] + rest);
      SameHead(0, [0], [0xff] + rest);
      assert [0] == [0] + [];
      DifferentHead(0, 0xff, [], rest);
    } else {
      assert y == [b[0]] + Memcomparable(b[1..]);
      DifferentHead(0, b[0], [0], Memcomparable(b[1..]));
    }
  }

  // --------------------------------------------------------------- main theorems

  /** Within one type, encodings compare bytewise exactly as the values do. */
  lemma OrderedExactly(a: Value, b: Value)
    requires CheckedCmp(a, b).Ok? && CheckedCmp(a, b).value.Some?
    ensures CheckedCmp(a, b).value.value == CompareBytes(EncodeOrdered(a), EncodeOrdered(b))
  {
    hide Memcomparable, Word;
    var x, y := EncodeOrdered(a), EncodeOrdered(b);
    LessTotal(x, y);
    PrefixFree(a, b);
    match (a, b)
    case (Int64(i), Int64(j)) =>
      WordOrder((i as int + SIGN) as u64, (j as int + SIGN) as u64);
      SameHead(1, Word((i as int + SIGN) as u64), Word((j as int + SIGN) as u64));
    case (Bool(i), Bool(j)) =>
    case (Text(s), Text(t)) =>
      MemcomparableOrder(s, t);
      SameHead(4, Memcomparable(s), Memcomparable(t));
    case (Blob(s), Blob(t)) =>
      MemcomparableOrder(s, t);
      SameHead(5, Memcomparable(s), Memcomparable(t));
    case _ =>
  }

  /** No encoding is a proper prefix of another, and equal encodings mean equal values. */
  lemma PrefixFree(a: Value, b: Value)
    ensures Unprefixed(EncodeOrdered(a), EncodeOrdered(b))
    ensures EncodeOrdered(a) == EncodeOrdered(b) ==> a == b
  {
    hide Memcomparable, Word, Less;
    var x, y := EncodeOrdered(a), EncodeOrdered(b);
    match (a, b)
    case (Int64(i), Int64(j)) =>
      WordOrder((i as int + SIGN) as u64, (j as int + SIGN) as u64);
      SameHead(1, Word((i as int + SIGN) as u64), Word((j as int + SIGN) as u64));
      assert x == y ==> x[1..] == y[1..];
    case (Text(s), Text(t)) =>
      MemcomparableOrder(s, t);
      SameHead(4, Memcomparable(s), Memcomparable(t));
      assert x == y ==> x[1..] == y[1..];
    case (Blob(s), Blob(t)) =>
      MemcomparableOrder(s, t);
      SameHead(5, Memcomparable(s), Memcomparable(t));
      assert x == y ==> x[1..] == y[1..];
    case _ =>
      assert x != [] && y != [] && (x[0] == y[0] ==> a == b);
  }

  /** Any two values: null first, then numbers, flags, texts and blobs, each in its own order. */
  predicate Ahead(a: Value, b: Value) {
    a.TypeTag() < b.TypeTag() || CheckedCmp(a, b) == Ok(Some(Lesser))
  }

  lemma OrderedAcross(a: Value, b: Value)
    ensures Less(EncodeOrdered(a), EncodeOrdered(b)) <==> Ahead(a, b)
  {
    hide Memcomparable, Word;
    var x, y := EncodeOrdered(a), EncodeOrdered(b);
    if a.TypeTag() == b.TypeTag() {
      LessIrreflexive(x);
      if !a.Null? {
        OrderedExactly(a, b);
      }
    } else {
      assert x == [x[0]] + x[1..] && y == [y[0]] + y[1..];
      DifferentHead(x[0], y[0], x[1..], y[1..]);
    }
  }

  /** Versioned keys sort by table, then key, then newest commit first. */
  lemma MvccOrder(s: u64, a: Value, c: u64, t: u64, b: Value, d: u64)
    ensures Less(EncodeMvccKey(s, a, c), EncodeMvccKey(t, b, d)) <==>
              || s < t
              || (s == t && Ahead(a, b))
              || (s == t && a == b && c > d)
  {
    var x, y := EncodeOrdered(a), EncodeOrdered(b);
    var u, v := Word(Complement(c)), Word(Complement(d));
    WordOrder(s, t);
    WordOrder(Complement(c), Complement(d));
    OrderedAcross(a, b);
    PrefixFree(a, b);
    assert EncodeMvccKey(s, a, c) == Word(s) + (x + u) && EncodeMvccKey(t, b, d) == Word(t) + (y + v);
    HeadThenTail(Word(s), Word(t), x + u, y + v);
    HeadThenTail(x, y, u, v);
    LessIrreflexive(x);
  }
}
