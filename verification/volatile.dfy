/** Volatile session objects and the bit extraction among them. */
module Volatile {
  import opened Bits
  import opened Bytes
  import opened Errors

  const MAX_SESSION_OBJECTS := 64
  const MAX_VALUE_LENGTH := 1024

  datatype Kind = GenericSecret | Aes | P256Private

  function KindFromByte(b: byte): Option<Kind> {
    match b
    case 1 => Some(GenericSecret)
    case 2 => Some(Aes)
    case 3 => Some(P256Private)
    case _ => None
  }

  datatype SessionObject = SessionObject(kind: Kind, flags: byte, value: bytes)

  predicate Readable(flags: byte) {
    flags % 2 == 1
  }

  predicate Derivable(flags: byte) {
    (flags / 2) % 2 == 1
  }

  predicate Verifiable(flags: byte) {
    (flags / 4) % 2 == 1
  }

  predicate ValidFlags(flags: byte) {
    flags < 8
  }

  function NewSecret(kind: Kind, flags: byte, value: bytes): Option<SessionObject> {
    if value == [] || |value| > MAX_VALUE_LENGTH || (kind.Aes? && |value| !in {16, 24, 32}) || kind.P256Private? then None
    else Some(SessionObject(kind, flags, value))
  }

  type Store = map<u64, SessionObject>

  /** The first drawn handle that is nonzero and free. */
  function FirstFree(s: Store, draws: seq<u64>): Option<u64> {
    if draws == [] then None
    else if draws[0] != 0 && draws[0] !in s then Some(draws[0])
    else FirstFree(s, draws[1..])
  }

  function ChooseHandle(s: Store, draws: seq<u64>): Option<u64> {
    if |s| >= MAX_SESSION_OBJECTS then None else FirstFree(s, draws)
  }

  method SampleHandle(s: Store, draws: seq<u64>) returns (r: Option<u64>)
    ensures r == ChooseHandle(s, draws)
    ensures r.Some? ==> r.value != 0 && r.value !in s && r.value in draws && |s| < MAX_SESSION_OBJECTS
  {
    if |s| >= MAX_SESSION_OBJECTS {
      return None;
    }
    var i := 0;
    while i < |draws|
      invariant 0 <= i <= |draws|
      invariant FirstFree(s, draws) == FirstFree(s, draws[i..])
    {
      assert draws[i..][1..] == draws[i + 1..];
      if draws[i] != 0 && draws[i] !in s {
        return Some(draws[i]);
      }
      i := i + 1;
    }
    r := None;
  }

  /** The objects of one session, changed in place. */
  class SessionObjects {
    var objects: Store

    constructor (objects: Store)
      ensures this.objects == objects
    {
      this.objects := objects;
    }

    method Insert(o: SessionObject, draws: seq<u64>) returns (handle: Option<u64>)
      modifies this
      ensures handle == ChooseHandle(old(objects), draws)
      ensures objects == if handle.Some? then old(objects)[handle.value := o] else old(objects)
    {
      handle := SampleHandle(objects, draws);
      if handle.Some? {
        objects := objects[handle.value := o];
      }
    }

    method Remove(handle: u64) returns (found: bool)
      modifies this
      ensures found <==> handle in old(objects)
      ensures objects == old(objects) - {handle}
    {
      found := handle in objects;
      objects := objects - {handle};
    }
  }

  lemma {:induction false} FirstFreeIsFresh(s: Store, draws: seq<u64>)
    requires FirstFree(s, draws).Some?
    ensures FirstFree(s, draws).value != 0 && FirstFree(s, draws).value !in s
  {
    if !(draws[0] != 0 && draws[0] !in s) {
      FirstFreeIsFresh(s, draws[1..]);
    }
  }

  // ----- Extract

  function Join(high: bv8, low: bv8, shift: nat): bv8
    requires 0 < shift < 8
  {
    match shift
    case 1 => (high << 1) | (low >> 7)
    case 2 => (high << 2) | (low >> 6)
    case 3 => (high << 3) | (low >> 5)
    case 4 => (high << 4) | (low >> 4)
    case 5 => (high << 5) | (low >> 3)
    case 6 => (high << 6) | (low >> 2)
    case _ => (high << 7) | (low >> 1)
  }

  /** The byte that starts at bit `bit` of the base, read cyclically. */
  function ByteAt(base: bytes, bit: nat): byte
    requires bit < 8 * |base|
  {
    var index, shift := bit / 8, bit % 8;
    if shift == 0 then base[index]
    else ToByte(Join(ToBits(base[index]), ToBits(base[(index + 1) % |base|]), shift))
  }

  function Extract(base: bytes, offset: nat, length: nat): (r: bytes)
    requires base != []
    ensures |r| == length
  {
    seq(length, i requires 0 <= i < length => ByteAt(base, (offset + 8 * i) % (8 * |base|)))
  }

  method ExtractLoop(base: bytes, offset: u16, length: nat) returns (r: Result<bytes>)
    ensures r == if offset >= 8 * |base| then Err(InvalidData)
                 else if length > |base| then Err(WrongLength)
                 else Ok(Extract(base, offset, length))
  {
    if offset >= |base| * 8 {
      return Err(InvalidData);
    }
    if length > |base| {
      return Err(WrongLength);
    }
    var value: bytes := [];
    for index := 0 to length
      invariant value == Extract(base, offset, index)
    {
      var bit := (offset + index * 8) % (|base| * 8);
      assert bit == (offset + 8 * index) % (8 * |base|);
      var byteIndex, shift := bit / 8, bit % 8;
      var next := if shift == 0 then base[byteIndex]
                  else ToByte(Join(ToBits(base[byteIndex]), ToBits(base[(byteIndex + 1) % |base|]), shift));
      value := value + [next];
    }
    r := Ok(value);
  }

  /** Bit `k` of a byte, most significant first. */
  predicate BitOf(x: bv8, k: nat)
    requires k < 8
  {
    match k
    case 0 => x & 0x80 != 0
    case 1 => x & 0x40 != 0
    case 2 => x & 0x20 != 0
    case 3 => x & 0x10 != 0
    case 4 => x & 0x08 != 0
    case 5 => x & 0x04 != 0
    case 6 => x & 0x02 != 0
    case _ => x & 0x01 != 0
  }

  predicate BitAt(s: bytes, n: nat)
    requires n < 8 * |s|
  {
    BitOf(ToBits(s[n / 8]), n % 8)
  }

  lemma JoinBit1(high: bv8, low: bv8, k: nat)
    requires k < 8
    ensures BitOf(Join(high, low, 1), k) == if 1 + k < 8 then BitOf(high, 1 + k) else BitOf(low, 1 + k - 8)
  {
  }

  lemma JoinBit2(high: bv8, low: bv8, k: nat)
    requires k < 8
    ensures BitOf(Join(high, low, 2), k) == if 2 + k < 8 then BitOf(high, 2 + k) else BitOf(low, 2 + k - 8)
  {
  }

  lemma JoinBit3(high: bv8, low: bv8, k: nat)
    requires k < 8
    ensures BitOf(Join(high, low, 3), k) == if 3 + k < 8 then BitOf(high, 3 + k) else BitOf(low, 3 + k - 8)
  {
  }

  lemma JoinBit4(high: bv8, low: bv8, k: nat)
    requires k < 8
    ensures BitOf(Join(high, low, 4), k) == if 4 + k < 8 then BitOf(high, 4 + k) else BitOf(low, 4 + k - 8)
  {
  }

  lemma JoinBit5(high: bv8, low: bv8, k: nat)
    requires k < 8
    ensures BitOf(Join(high, low, 5), k) == if 5 + k < 8 then BitOf(high, 5 + k) else BitOf(low, 5 + k - 8)
  {
  }

  lemma JoinBit6(high: bv8, low: bv8, k: nat)
    requires k < 8
    ensures BitOf(Join(high, low, 6), k) == if 6 + k < 8 then BitOf(high, 6 + k) else BitOf(low, 6 + k - 8)
  {
  }

  lemma JoinBit7(high: bv8, low: bv8, k: nat)
    requires k < 8
    ensures BitOf(Join(high, low, 7), k) == if 7 + k < 8 then BitOf(high, 7 + k) else BitOf(low, 7 + k - 8)
  {
  }

  lemma JoinBit(high: bv8, low: bv8, shift: nat, k: nat)
    requires 0 < shift < 8 && k < 8
    ensures BitOf(Join(high, low, shift), k)
            == if shift + k < 8 then BitOf(high, shift + k) else BitOf(low, shift + k - 8)
  {
    if shift == 1 {
      JoinBit1(high, low, k);
    } else if shift == 2 {
      JoinBit2(high, low, k);
    } else if shift == 3 {
      JoinBit3(high, low, k);
    } else if shift == 4 {
      JoinBit4(high, low, k);
    } else if shift == 5 {
      JoinBit5(high, low, k);
    } else if shift == 6 {
      JoinBit6(high, low, k);
    } else {
      JoinBit7(high, low, k);
    }
  }

  /** Where bit `k` after `bit` lies: same byte, next byte, or around to the first. */
  lemma CyclicPosition(length: nat, bit: nat, k: nat)
    requires bit < 8 * length && k < 8
    ensures
      var index, shift := bit / 8, bit % 8;
      var at := (bit + k) % (8 * length);
      && index < length && at < 8 * length
      && at / 8 == (if shift + k < 8 then index else (index + 1) % length)
      && at % 8 == (if shift + k < 8 then shift + k else shift + k - 8)
  {
    var index, shift := bit / 8, bit % 8;
    if index + 1 < length {
      SmallMod(bit + k, 8 * length);
      SmallMod(index + 1, length);
    } else if shift + k < 8 {
      SmallMod(bit + k, 8 * length);
    } else {
      assert index + 1 == length;
      assert bit + k == 8 * length + (shift + k - 8);
      ModPeriodOne(shift + k - 8, 8 * length);
      SmallMod(shift + k - 8, 8 * length);
      ModPeriodOne(0, length);
    }
  }

  lemma SmallMod(x: nat, m: nat)
    requires x < m
    ensures x % m == x
  {
  }

  /** Eight cyclic bits starting anywhere. */
  lemma ByteAtBits(base: bytes, bit: nat, k: nat)
    requires bit < 8 * |base| && k < 8
    ensures BitOf(ToBits(ByteAt(base, bit)), k) == BitAt(base, (bit + k) % (8 * |base|))
  {
    var index, shift := bit / 8, bit % 8;
    var next := (index + 1) % |base|;
    CyclicPosition(|base|, bit, k);
    if shift != 0 {
      ByteAtJoins(base, bit);
      JoinBit(ToBits(base[index]), ToBits(base[next]), shift, k);
    }
  }

  lemma ByteAtJoins(base: bytes, bit: nat)
    requires bit < 8 * |base| && bit % 8 != 0
    ensures ToBits(ByteAt(base, bit)) == Join(ToBits(base[bit / 8]), ToBits(base[(bit / 8 + 1) % |base|]), bit % 8)
  {
  }

  lemma ModShift(a: nat, b: nat, m: nat)
    requires m > 0
    ensures (a % m + b) % m == (a + b) % m
  {
    var q := a / m;
    assert a == q * m + a % m;
    ModPeriod(a % m + b, q, m);
  }

  lemma {:induction false} ModPeriod(x: nat, q: nat, m: nat)
    requires m > 0
    ensures (q * m + x) % m == x % m
  {
    if q > 0 {
      ModPeriod(x, q - 1, m);
      assert q * m + x == ((q - 1) * m + x) + m;
      ModPeriodOne((q - 1) * m + x, m);
    }
  }

  lemma ModPeriodOne(y: nat, m: nat)
    requires m > 0
    ensures (y + m) % m == y % m
  {
    var q, r := y / m, y % m;
    var q', r' := (y + m) / m, (y + m) % m;
    assert y + m == q * m + r + m;
    assert (q + 1) * m == q * m + m;
    DivisionUnique(q + 1, r, q', r', m);
  }

  lemma ProductNonNegative(a: nat, m: nat)
    ensures a * m >= 0
  {
  }

  lemma MultiplesApart(a: int, b: int, m: nat)
    requires a < b
    ensures b * m >= a * m + m
  {
    ProductNonNegative(b - a - 1, m);
    assert (b - a - 1) * m == b * m - a * m - m;
  }

  lemma DivisionUnique(q: int, r: int, q': int, r': int, m: nat)
    requires 0 <= r < m && 0 <= r' < m && q * m + r == q' * m + r'
    ensures q == q' && r == r'
  {
    if q < q' {
      MultiplesApart(q, q', m);
    } else if q' < q {
      MultiplesApart(q', q, m);
    }
  }

  /** Bit `n` counted around from `offset` is bit `k` counted around from the byte that holds it. */
  lemma CyclicSum(offset: nat, n: nat, m: nat, i: nat, k: nat)
    requires m > 0 && n == 8 * i + k
    ensures ((offset + 8 * i) % m + k) % m == (offset + n) % m && (offset + 8 * i) % m < m
  {
    ModShift(offset + 8 * i, k, m);
  }

  lemma BitOfByte(r: bytes, base: bytes, n: nat, i: nat, k: nat, at: nat, from: nat)
    requires i < |r| && k < 8 && n == 8 * i + k
    requires at < 8 * |base| && r[i] == ByteAt(base, at)
    requires from < 8 * |base| && BitOf(ToBits(ByteAt(base, at)), k) == BitAt(base, from)
    ensures BitAt(r, n) == BitAt(base, from)
  {
  }

  lemma WindowBit(base: bytes, at: nat, k: nat, from: nat)
    requires base != [] && at < 8 * |base| && k < 8 && from == (at + k) % (8 * |base|)
    ensures from < 8 * |base| && BitOf(ToBits(ByteAt(base, at)), k) == BitAt(base, from)
  {
    ByteAtBits(base, at, k);
  }

  lemma ExtractedByte(base: bytes, offset: nat, length: nat, i: nat)
    requires base != [] && i < length
    ensures Extract(base, offset, length)[i] == ByteAt(base, (offset + 8 * i) % (8 * |base|))
  {
  }

  /** Output bit `n` is base bit `offset + n`, counted around the base. */
  lemma ExtractIsCyclicWindow(base: bytes, offset: nat, length: nat, n: nat)
    requires base != [] && n < 8 * length
    ensures BitAt(Extract(base, offset, length), n) == BitAt(base, (offset + n) % (8 * |base|))
  {
    var i, k := n / 8, n % 8;
    CyclicSum(offset, n, 8 * |base|, i, k);
    ExtractedByte(base, offset, length, i);
    var at, from := (offset + 8 * i) % (8 * |base|), (offset + n) % (8 * |base|);
    WindowBit(base, at, k, from);
    BitOfByte(Extract(base, offset, length), base, n, i, k, at, from);
  }
}
