/** The storage encoding of values and rows, and its decoder. */
module RowCodec {
  import opened Wrappers
  import opened Ordering
  import opened OrderedKeys
  import opened Mvcc

  // --------------------------------------------------------------------- numbers

  /** The low `n` bytes of a number, least significant first. */
  function LittleEndian(x: nat, n: nat): Bytes {
    if n == 0 then [] else [(x % 256) as byte] + LittleEndian(x / 256, n - 1)
  }

  function Number(b: Bytes): nat {
    if b == [] then 0 else b[0] as nat + 256 * Number(b[1..])
  }

  lemma {:induction false} NumberOfBytes(x: nat, n: nat)
    requires x < Power(n)
    ensures |LittleEndian(x, n)| == n && Number(LittleEndian(x, n)) == x
    decreases n
  {
    if n > 0 {
      NumberOfBytes(x / 256, n - 1);
      assert LittleEndian(x, n)[1..] == LittleEndian(x / 256, n - 1);
    }
  }

  lemma {:induction false} BytesOfNumber(b: Bytes)
    ensures Number(b) < Power(|b|) && LittleEndian(Number(b), |b|) == b
  {
    if b != [] {
      BytesOfNumber(b[1..]);
      assert Number(b) / 256 == Number(b[1..]) && Number(b) % 256 == b[0] as nat;
      assert b == [b[0]] + b[1..];
    }
  }

  /** Two's complement. */
  function Unsigned(x: i64): nat {
    if x < 0 then (x as int + WORD) as nat else x as nat
  }

  function Signed(x: nat): i64
    requires x < WORD
  {
    if x < SIGN then x as i64 else (x - WORD) as i64
  }

  // --------------------------------------------------------------------- encoding

  function Sized(s: Bytes): Bytes {
    LittleEndian(|s|, 4) + s
  }

  function EncodeValue(v: Value): Bytes {
    match v
    case Null => [0]
    case Int64(x) => [1] + LittleEndian(Unsigned(x), 8)
    case Bool(flag) => if flag then [3] else [2]
    case Text(s) => [4] + Sized(s)
    case Blob(s) => [5] + Sized(s)
  }

  function EncodeValues(vs: Row): Bytes {
    if vs == [] then [] else EncodeValue(vs[0]) + EncodeValues(vs[1..])
  }

  predicate RowFits(row: Row) {
    |row| <= MAX_ROW_COLUMNS && forall i :: 0 <= i < |row| ==> ValueFits(row[i])
  }

  /** A row is refused when it or one of its values is too large. */
  function EncodeRow(row: Row): Option<Bytes> {
    if RowFits(row) then Some(LittleEndian(|row|, 4) + EncodeValues(row)) else None
  }

  /** The encoder itself, value by value. */
  method WriteRow(row: Row) returns (encoded: Option<Bytes>)
    ensures encoded == EncodeRow(row)
  {
    hide LittleEndian, EncodeValue, ValueFits;
    if |row| > MAX_ROW_COLUMNS {
      return None;
    }
    var output, i := LittleEndian(|row|, 4), 0;
    assert row[0..] == row;
    while i < |row|
      invariant 0 <= i <= |row| && forall j :: 0 <= j < i ==> ValueFits(row[j])
      invariant output + EncodeValues(row[i..]) == LittleEndian(|row|, 4) + EncodeValues(row)
    {
      assert row[i..][1..] == row[i + 1..];
      if !ValueFits(row[i]) {
        return None;
      }
      output := output + EncodeValue(row[i]);
      i := i + 1;
    }
    assert row[i..] == [] && output + [] == output;
    return Some(output);
  }

  // --------------------------------------------------------------------- decoding

  type Decoded<T> = Option<(T, Bytes)>

  function Take(b: Bytes, n: nat): Decoded<Bytes> {
    if n > |b| then None else Some((b[..n], b[n..]))
  }

  function TakeSized(b: Bytes): Decoded<Bytes> {
    match Take(b, 4)
    case None => None
    case Some((head, rest)) => if Number(head) > MAX_VALUE_BYTES then None else Take(rest, Number(head))
  }

  function DecodeValue(b: Bytes): Decoded<Value> {
    if b == [] then None
    else
      var rest := b[1..];
      if b[0] == 0 then Some((Null, rest))
      else if b[0] == 1 then
        if |rest| < 8 then None
        else
          BytesOfNumber(rest[..8]);
          EightBytes();
          Some((Int64(Signed(Number(rest[..8]))), rest[8..]))
      else if b[0] == 2 then Some((Bool(false), rest))
      else if b[0] == 3 then Some((Bool(true), rest))
      else if b[0] == 4 then
        match TakeSized(rest)
        case None => None
        case Some((s, tail)) => Some((Text(s), tail))
      else if b[0] == 5 then
        match TakeSized(rest)
        case None => None
        case Some((s, tail)) => Some((Blob(s), tail))
      else None
  }

  function DecodeValues(b: Bytes, n: nat): Decoded<Row>
    decreases n
  {
    if n == 0 then Some(([], b))
    else
      match DecodeValue(b)
      case None => None
      case Some((v, rest)) =>
        match DecodeValues(rest, n - 1)
        case None => None
        case Some((vs, tail)) => Some(([v] + vs, tail))
  }

  /** Nothing may follow the last value. */
  function DecodeRow(b: Bytes): Option<Row> {
    match Take(b, 4)
    case None => None
    case Some((head, rest)) =>
      if Number(head) > MAX_ROW_COLUMNS then None
      else
        match DecodeValues(rest, Number(head))
        case None => None
        case Some((row, tail)) => if tail == [] then Some(row) else None
  }

  // ------------------------------------------------------------------- inverse pair

  lemma FourBytes()
    ensures Power(4) == 0x1_0000_0000
  {
    assert Power(1) == 256 && Power(2) == 0x1_0000 && Power(3) == 0x100_0000;
  }

  lemma TakeFront(a: Bytes, b: Bytes)
    ensures Take(a + b, |a|) == Some((a, b))
  {
    assert (a + b)[..|a|] == a && (a + b)[|a|..] == b;
  }

  lemma SizedRoundTrip(s: Bytes, rest: Bytes)
    requires |s| <= MAX_VALUE_BYTES
    ensures TakeSized(Sized(s) + rest) == Some((s, rest))
  {
    FourBytes();
    NumberOfBytes(|s|, 4);
    assert Sized(s) + rest == LittleEndian(|s|, 4) + (s + rest);
    TakeFront(LittleEndian(|s|, 4), s + rest);
    TakeFront(s, rest);
  }

  lemma SizedInverse(b: Bytes)
    requires TakeSized(b).Some?
    ensures var (s, rest) := TakeSized(b).value; |s| <= MAX_VALUE_BYTES && b == Sized(s) + rest
  {
    BytesOfNumber(b[..4]);
    var (s, rest) := TakeSized(b).value;
    assert b == b[..4] + (s + rest);
  }

  lemma WordRoundTrip(x: i64, rest: Bytes)
    ensures DecodeValue([1] + LittleEndian(Unsigned(x), 8) + rest) == Some((Int64(x), rest))
  {
    hide LittleEndian, Number, Power;
    EightBytes();
    NumberOfBytes(Unsigned(x), 8);
    var w := LittleEndian(Unsigned(x), 8);
    var b := [1] + w + rest;
    assert b[0] == 1 && b[1..] == w + rest;
    assert (w + rest)[..8] == w && (w + rest)[8..] == rest;
  }

  lemma ValueRoundTrip(v: Value, rest: Bytes)
    requires ValueFits(v)
    ensures DecodeValue(EncodeValue(v) + rest) == Some((v, rest))
  {
    hide LittleEndian, Number, Power, Sized, TakeSized;
    var b := EncodeValue(v) + rest;
    match v
    case Int64(x) => WordRoundTrip(x, rest);
    case Text(s) =>
      assert b[1..] == Sized(s) + rest;
      SizedRoundTrip(s, rest);
    case Blob(s) =>
      assert b[1..] == Sized(s) + rest;
      SizedRoundTrip(s, rest);
    case Null => assert b[1..] == rest;
    case Bool(_) => assert b[1..] == rest;
  }

  lemma ValueInverse(b: Bytes)
    requires DecodeValue(b).Some?
    ensures var (v, rest) := DecodeValue(b).value; ValueFits(v) && b == EncodeValue(v) + rest
  {
    assert b == [b[0]] + b[1..];
    if b[0] == 1 {
      var w := b[1..][..8];
      BytesOfNumber(w);
      EightBytes();
      assert b[1..] == w + b[1..][8..];
      assert Unsigned(Signed(Number(w))) == Number(w);
    } else if b[0] == 4 || b[0] == 5 {
      SizedInverse(b[1..]);
    }
  }

  lemma {:induction false} ValuesRoundTrip(vs: Row, rest: Bytes)
    requires forall i :: 0 <= i < |vs| ==> ValueFits(vs[i])
    ensures DecodeValues(EncodeValues(vs) + rest, |vs|) == Some((vs, rest))
    decreases |vs|
  {
    if vs == [] {
      assert EncodeValues(vs) + rest == rest;
    } else {
      assert EncodeValues(vs) + rest == EncodeValue(vs[0]) + (EncodeValues(vs[1..]) + rest);
      ValueRoundTrip(vs[0], EncodeValues(vs[1..]) + rest);
      ValuesRoundTrip(vs[1..], rest);
      assert vs == [vs[0]] + vs[1..];
    }
  }

  lemma {:induction false} ValuesInverse(b: Bytes, n: nat)
    requires DecodeValues(b, n).Some?
    ensures var (vs, rest) := DecodeValues(b, n).value;
            |vs| == n && b == EncodeValues(vs) + rest && forall i :: 0 <= i < n ==> ValueFits(vs[i])
    decreases n
  {
    if n > 0 {
      ValueInverse(b);
      var (v, mid) := DecodeValue(b).value;
      ValuesInverse(mid, n - 1);
      var (vs, rest) := DecodeValues(mid, n - 1).value;
      assert ([v] + vs)[1..] == vs;
      assert b == EncodeValue(v) + (EncodeValues(vs) + rest);
    }
  }

  /** Decoding inverts encoding. */
  lemma RowRoundTrip(row: Row)
    requires RowFits(row)
    ensures EncodeRow(row).Some? && DecodeRow(EncodeRow(row).value) == Some(row)
  {
    FourBytes();
    NumberOfBytes(|row|, 4);
    TakeFront(LittleEndian(|row|, 4), EncodeValues(row));
    ValuesRoundTrip(row, []);
    assert EncodeValues(row) + [] == EncodeValues(row);
  }

  /** Encoding inverts decoding: only encodings decode, so each row has one. */
  lemma RowInverse(b: Bytes)
    requires DecodeRow(b).Some?
    ensures EncodeRow(DecodeRow(b).value) == Some(b)
  {
    BytesOfNumber(b[..4]);
    ValuesInverse(b[4..], Number(b[..4]));
    var row := DecodeRow(b).value;
    assert b == b[..4] + b[4..] && EncodeValues(row) + [] == EncodeValues(row);
  }

  lemma SameValue(a: Value, b: Value)
    requires ValueFits(a) && ValueFits(b) && EncodeValue(a) == EncodeValue(b)
    ensures a == b
  {
    ValueRoundTrip(a, []);
    ValueRoundTrip(b, []);
  }
}
