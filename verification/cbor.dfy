/**
 The subset of CBOR (RFC 8949, section 3) that a wrapped object uses, written in
 shortest form (section 4.2.1), and a reader that is deliberately more lenient:
 it also takes longer arguments and indefinite-length strings and arrays.
 */
module Cbor {
  import opened Bytes
  import opened Errors
  import opened Counter

  datatype Value = UInt(n: nat) | ByteString(b: bytes) | Text(b: bytes) | Array(items: seq<Value>)

  const BREAK: byte := 0xff
  const INDEFINITE := 31

  function BigEndian(n: nat, k: nat): (s: bytes)
    ensures |s| == k
  {
    if k == 0 then [] else BigEndian(n / 0x100, k - 1) + [n % 0x100]
  }

  lemma {:induction false} NumberOfBigEndian(n: nat, k: nat)
    requires n < Pow256(k)
    ensures Number(BigEndian(n, k)) == n
  {
    if k > 0 {
      assert n / 0x100 < Pow256(k - 1);
      NumberOfBigEndian(n / 0x100, k - 1);
      assert BigEndian(n, k)[..k - 1] == BigEndian(n / 0x100, k - 1);
    }
  }

  // ----- writing

  function Head(major: nat, n: nat): (s: bytes)
    requires major < 8
    ensures |s| > 0
  {
    var top := 32 * major;
    if n < 24 then [top + n]
    else if n < 0x100 then [top + 24] + BigEndian(n, 1)
    else if n < 0x1_0000 then [top + 25] + BigEndian(n, 2)
    else if n < 0x1_0000_0000 then [top + 26] + BigEndian(n, 4)
    else [top + 27] + BigEndian(n, 8)
  }

  function Write(v: Value): (s: bytes)
    ensures |s| > 0
  {
    match v
    case UInt(n) => Head(0, n)
    case ByteString(b) => Head(2, |b|) + b
    case Text(b) => Head(3, |b|) + b
    case Array(items) => Head(4, |items|) + WriteAll(items)
  }

  function WriteAll(items: seq<Value>): bytes {
    if items == [] then [] else Write(items[0]) + WriteAll(items[1..])
  }

  /** Every number and length has a CBOR argument. */
  predicate Representable(v: Value) {
    match v
    case UInt(n) => n < U64_MODULUS
    case ByteString(b) => |b| < U64_MODULUS
    case Text(b) => |b| < U64_MODULUS
    case Array(items) => |items| < U64_MODULUS && AllRepresentable(items)
  }

  predicate AllRepresentable(items: seq<Value>) {
    items == [] || (Representable(items[0]) && AllRepresentable(items[1..]))
  }

  /** Examples of appendix A of RFC 8949. */
  lemma Examples()
    ensures Write(UInt(23)) == [0x17] && Write(UInt(24)) == [0x18, 0x18] && Write(UInt(1000)) == [0x19, 0x03, 0xe8]
    ensures Write(ByteString([1, 2, 3, 4])) == [0x44, 1, 2, 3, 4] && Write(Text([0x61])) == [0x61, 0x61]
  {
    assert BigEndian(24, 1) == [0x18];
    assert BigEndian(1000, 2) == [0x03, 0xe8];
  }

  // ----- reading

  datatype Part<+T> = Part(value: T, rest: bytes)

  function ReadArgument(info: nat, s: bytes): (r: Option<Part<nat>>)
    ensures r.Some? ==> |r.value.rest| <= |s|
  {
    if info < 24 then Some(Part(info, s))
    else if info > 27 then None
    else
      var k := if info == 24 then 1 else if info == 25 then 2 else if info == 26 then 4 else 8;
      if |s| < k then None else Some(Part(Number(s[..k]), s[k..]))
  }

  function Read(s: bytes): (r: Option<Part<Value>>)
    ensures r.Some? ==> |r.value.rest| < |s|
    decreases |s|, 0
  {
    if s == [] then None
    else
      var major, info, tail := s[0] / 32, s[0] % 32, s[1..];
      if major == 2 || major == 3 then
        var text := if info == INDEFINITE then ReadChunks(major, tail) else ReadString(info, tail);
        if text.None? then None
        else Some(Part(if major == 2 then ByteString(text.value.value) else Text(text.value.value), text.value.rest))
      else if major == 4 && info == INDEFINITE then
        var items := ReadUntilBreak(tail);
        if items.None? then None else Some(Part(Array(items.value.value), items.value.rest))
      else
        var n := ReadArgument(info, tail);
        if n.None? then None
        else if major == 0 then Some(Part(UInt(n.value.value), n.value.rest))
        else if major == 4 then
          var items := ReadItems(n.value.value, n.value.rest);
          if items.None? then None else Some(Part(Array(items.value.value), items.value.rest))
        else None
  }

  function ReadString(info: nat, s: bytes): (r: Option<Part<bytes>>)
    ensures r.Some? ==> |r.value.rest| <= |s|
  {
    var n := ReadArgument(info, s);
    if n.None? || |n.value.rest| < n.value.value then None
    else Some(Part(n.value.rest[..n.value.value], n.value.rest[n.value.value..]))
  }

  function ReadChunks(major: nat, s: bytes): (r: Option<Part<bytes>>)
    ensures r.Some? ==> |r.value.rest| <= |s|
    decreases |s|
  {
    if s == [] then None
    else if s[0] == BREAK then Some(Part([], s[1..]))
    else if s[0] / 32 != major then None
    else
      var first := ReadString(s[0] % 32, s[1..]);
      if first.None? then None
      else
        var more := ReadChunks(major, first.value.rest);
        if more.None? then None else Some(Part(first.value.value + more.value.value, more.value.rest))
  }

  function ReadItems(n: nat, s: bytes): (r: Option<Part<seq<Value>>>)
    ensures r.Some? ==> |r.value.rest| <= |s|
    decreases |s|, 1
  {
    if n == 0 then Some(Part([], s))
    else
      var first := Read(s);
      if first.None? then None
      else
        var more := ReadItems(n - 1, first.value.rest);
        if more.None? then None else Some(Part([first.value.value] + more.value.value, more.value.rest))
  }

  function ReadUntilBreak(s: bytes): (r: Option<Part<seq<Value>>>)
    ensures r.Some? ==> |r.value.rest| <= |s|
    decreases |s|, 1
  {
    if s == [] then None
    else if s[0] == BREAK then Some(Part([], s[1..]))
    else
      var first := Read(s);
      if first.None? then None
      else
        var more := ReadUntilBreak(first.value.rest);
        if more.None? then None else Some(Part([first.value.value] + more.value.value, more.value.rest))
  }

  /** One value and nothing after it. */
  function ReadWhole(s: bytes): Option<Value> {
    var r := Read(s);
    if r.Some? && r.value.rest == [] then Some(r.value.value) else None
  }

  // ----- reading back what was written

  lemma HeadReads(major: nat, n: nat, tail: bytes)
    requires major < 8 && n < U64_MODULUS
    ensures
      var s := Head(major, n) + tail;
      s[0] / 32 == major && s[0] % 32 < 28 && ReadArgument(s[0] % 32, s[1..]) == Some(Part(n, tail))
  {
    var s := Head(major, n) + tail;
    assert Pow256(1) == 0x100 && Pow256(2) == 0x1_0000 && Pow256(3) == 0x100_0000 && Pow256(4) == 0x1_0000_0000;
    if n < 24 {
      assert s[1..] == tail;
    } else if n < 0x100 {
      ArgumentReads(n, 1, s, tail);
    } else if n < 0x1_0000 {
      ArgumentReads(n, 2, s, tail);
    } else if n < 0x1_0000_0000 {
      ArgumentReads(n, 4, s, tail);
    } else {
      EightBytes();
      ArgumentReads(n, 8, s, tail);
    }
  }

  lemma EightBytes()
    ensures Pow256(8) == U64_MODULUS
  {
    assert Pow256(4) == 0x1_0000_0000;
    assert Pow256(6) == 0x1_0000_0000_0000;
  }

  lemma ArgumentReads(n: nat, k: nat, s: bytes, tail: bytes)
    requires n < Pow256(k) && |s| > 0 && s[1..] == BigEndian(n, k) + tail
    ensures Number(s[1..][..k]) == n && s[1..][k..] == tail
  {
    NumberOfBigEndian(n, k);
    assert s[1..][..k] == BigEndian(n, k);
  }

  lemma StringReads(major: nat, b: bytes, tail: bytes)
    requires major < 8 && |b| < U64_MODULUS
    ensures
      var s := Head(major, |b|) + b + tail;
      s[0] / 32 == major && s[0] % 32 < 28 && ReadString(s[0] % 32, s[1..]) == Some(Part(b, tail))
  {
    var s := Head(major, |b|) + b + tail;
    assert s == Head(major, |b|) + (b + tail);
    HeadReads(major, |b|, b + tail);
  }

  lemma {:induction false} ReadWrite(v: Value, tail: bytes)
    requires Representable(v)
    ensures Read(Write(v) + tail) == Some(Part(v, tail))
    decreases v
  {
    var s := Write(v) + tail;
    match v
    case UInt(n) =>
      HeadReads(0, n, tail);
    case ByteString(b) =>
      StringReads(2, b, tail);
    case Text(b) =>
      StringReads(3, b, tail);
    case Array(items) =>
      assert s == Head(4, |items|) + (WriteAll(items) + tail);
      HeadReads(4, |items|, WriteAll(items) + tail);
      ReadWriteAll(items, tail);
  }

  lemma {:induction false} ReadWriteAll(items: seq<Value>, tail: bytes)
    requires AllRepresentable(items)
    ensures ReadItems(|items|, WriteAll(items) + tail) == Some(Part(items, tail))
    decreases items
  {
    if items == [] {
      assert WriteAll(items) + tail == tail;
    } else {
      var s := WriteAll(items) + tail;
      var after := WriteAll(items[1..]) + tail;
      assert s == Write(items[0]) + after;
      ReadWrite(items[0], after);
      ReadWriteAll(items[1..], tail);
      assert [items[0]] + items[1..] == items;
    }
  }

  /** The lenient reader reads back everything the writer writes. */
  lemma ReaderInvertsWriter(v: Value)
    requires Representable(v)
    ensures ReadWhole(Write(v)) == Some(v)
  {
    ReadWrite(v, []);
    assert Write(v) + [] == Write(v);
  }

  /** The reader is more lenient than the writer: other bytes read as the same value. */
  lemma ReaderIsLenient()
    ensures ReadWhole([0x18, 0x01]) == Some(UInt(1)) && Write(UInt(1)) == [0x01]
    ensures ReadWhole([0x9f, 0x01, 0xff]) == Some(Array([UInt(1)])) && Write(Array([UInt(1)])) == [0x81, 0x01]
  {
    var long: bytes := [0x18, 0x01];
    assert long[1..][..1] == [1] && long[1..][1..] == [];
    assert Number([1]) == 0x100 * Number([1][..0]) + 1;
    assert Read(long) == Some(Part(UInt(1), []));
    var open: bytes := [0x9f, 0x01, 0xff];
    assert open[1..] == [0x01, 0xff];
    assert open[1..][1..] == [0xff];
    assert open[1..][1..][1..] == [];
    assert Read(open[1..]) == Some(Part(UInt(1), [0xff]));
    assert ReadUntilBreak([0xff]) == Some(Part([], []));
    assert [UInt(1)] + [] == [UInt(1)];
    assert ReadUntilBreak(open[1..]) == Some(Part([UInt(1)], []));
    assert WriteAll([UInt(1)]) == Write(UInt(1)) + WriteAll([]);
  }
}
