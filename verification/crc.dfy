/** The 16-bit CRC that protects a one-time password, and its residue. */
module Crc {
  import opened Bits
  import opened Bytes

  const POLYNOMIAL: bv16 := 0x8408
  const RESIDUE: bv16 := 0xf0b8

  function Shift(crc: bv16): bv16 {
    if crc & 1 != 0 then (crc >> 1) ^ POLYNOMIAL else crc >> 1
  }

  function Shifts(crc: bv16, n: nat): bv16 {
    if n == 0 then crc else Shift(Shifts(crc, n - 1))
  }

  function Wide(b: byte): (w: bv16)
    ensures w <= 0xff
  {
    ToBits(b) as bv16
  }

  function Xor(a: bv16, b: bv16): bv16 {
    a ^ b
  }

  function Absorb(crc: bv16, b: byte): bv16 {
    Shifts(Xor(crc, Wide(b)), 8)
  }

  function CrcOf(data: bytes): bv16 {
    if data == [] then 0xffff else Absorb(CrcOf(data[..|data| - 1]), data[|data| - 1])
  }

  method YubicoCrc16(data: bytes) returns (crc: bv16)
    ensures crc == CrcOf(data)
  {
    crc := 0xffff;
    for i := 0 to |data|
      invariant crc == CrcOf(data[..i])
    {
      var start := crc ^ Wide(data[i]);
      crc := start;
      for j := 0 to 8
        invariant crc == Shifts(start, j)
      {
        crc := if crc & 1 != 0 then (crc >> 1) ^ POLYNOMIAL else crc >> 1;
      }
      assert data[..i + 1][..i] == data[..i];
    }
    assert data[..|data|] == data;
  }

  // ----- the shift register is linear and loses nothing

  lemma LowBitXor(a: bv16, b: bv16)
    ensures (a ^ b) & 1 != 0 <==> (a & 1 != 0) != (b & 1 != 0)
  {
    assert (a ^ b) & 1 == (a & 1) ^ (b & 1);
  }

  lemma ShiftLinearEvenEven(a: bv16, b: bv16)
    requires a & 1 == 0 && b & 1 == 0
    ensures Shift(a ^ b) == Shift(a) ^ Shift(b)
  {
    LowBitXor(a, b);
    assert (a ^ b) >> 1 == (a >> 1) ^ (b >> 1);
  }

  lemma ShiftLinearOddEven(a: bv16, b: bv16)
    requires a & 1 != 0 && b & 1 == 0
    ensures Shift(a ^ b) == Shift(a) ^ Shift(b)
  {
    LowBitXor(a, b);
  }

  lemma ShiftLinearEvenOdd(a: bv16, b: bv16)
    requires a & 1 == 0 && b & 1 != 0
    ensures Shift(a ^ b) == Shift(a) ^ Shift(b)
  {
    LowBitXor(a, b);
  }

  lemma ShiftLinearOddOdd(a: bv16, b: bv16)
    requires a & 1 != 0 && b & 1 != 0
    ensures Shift(a ^ b) == Shift(a) ^ Shift(b)
  {
    LowBitXor(a, b);
  }

  lemma ShiftLinear(a: bv16, b: bv16)
    ensures Shift(a ^ b) == Shift(a) ^ Shift(b)
  {
    if a & 1 != 0 {
      if b & 1 != 0 {
        ShiftLinearOddOdd(a, b);
      } else {
        ShiftLinearOddEven(a, b);
      }
    } else {
      if b & 1 != 0 {
        ShiftLinearEvenOdd(a, b);
      } else {
        ShiftLinearEvenEven(a, b);
      }
    }
  }

  lemma ShiftLinearXor(a: bv16, b: bv16)
    ensures Shift(Xor(a, b)) == Xor(Shift(a), Shift(b))
  {
    ShiftLinear(a, b);
  }

  lemma ShiftInjective(a: bv16, b: bv16)
    requires Shift(a) == Shift(b)
    ensures a == b
  {
  }

  lemma {:induction false} ShiftsLinear(a: bv16, b: bv16, n: nat)
    ensures Shifts(Xor(a, b), n) == Xor(Shifts(a, n), Shifts(b, n))
  {
    if n > 0 {
      ShiftsLinear(a, b, n - 1);
      ShiftLinearXor(Shifts(a, n - 1), Shifts(b, n - 1));
    }
  }

  lemma {:induction false} ShiftsInjective(a: bv16, b: bv16, n: nat)
    requires Shifts(a, n) == Shifts(b, n)
    ensures a == b
  {
    if n > 0 {
      ShiftInjective(Shifts(a, n - 1), Shifts(b, n - 1));
      ShiftsInjective(a, b, n - 1);
    }
  }

  lemma {:induction false} ShiftsCompose(a: bv16, m: nat, n: nat)
    ensures Shifts(Shifts(a, m), n) == Shifts(a, m + n)
  {
    if n > 0 {
      ShiftsCompose(a, m, n - 1);
    }
  }

  lemma Unroll8(a: bv16)
    ensures Shifts(a, 8) == Shift(Shift(Shift(Shift(Shift(Shift(Shift(Shift(a))))))))
  {
    assert Shifts(a, 1) == Shift(a);
    assert Shifts(a, 2) == Shift(Shift(a));
    assert Shifts(a, 3) == Shift(Shift(Shift(a)));
    assert Shifts(a, 4) == Shift(Shift(Shift(Shift(a))));
    assert Shifts(a, 5) == Shift(Shift(Shift(Shift(Shift(a)))));
    assert Shifts(a, 6) == Shift(Shift(Shift(Shift(Shift(Shift(a))))));
    assert Shifts(a, 7) == Shift(Shift(Shift(Shift(Shift(Shift(Shift(a)))))));
  }

  /** A high byte reaches the low end untouched: its feedback bits are still zero. */
  lemma HighByteFallsThrough(y: bv16)
    requires y <= 0xff
    ensures Shifts(y << 8, 8) == y
  {
    var a: bv16 := y << 8;
    assert Shift(a) == y << 7;
    assert Shift(y << 7) == y << 6;
    assert Shift(y << 6) == y << 5;
    assert Shift(y << 5) == y << 4;
    assert Shift(y << 4) == y << 3;
    assert Shift(y << 3) == y << 2;
    assert Shift(y << 2) == y << 1;
    assert Shift(y << 1) == y;
    Unroll8(a);
  }

  lemma TwoBytes(c: bv16, x: byte, y: byte)
    ensures Absorb(Absorb(c, x), y) == Shifts(Xor(Xor(c, Wide(x)), Wide(y) << 8), 16)
  {
    var first: bv16 := Xor(c, Wide(x));
    var high: bv16 := Wide(y) << 8;
    HighByteFallsThrough(Wide(y));
    ShiftsLinear(first, high, 8);
    ShiftsCompose(Xor(first, high), 8, 8);
  }

  lemma ResidueOfOnes()
    ensures Shifts(0xffff, 16) == RESIDUE
  {
    Unroll8(0xffff);
    Unroll8(Shifts(0xffff, 8));
    ShiftsCompose(0xffff, 8, 8);
  }

  lemma XorOnes(c: bv16, w: bv16)
    requires c ^ w == 0xffff
    ensures w == !c
  {
  }

  lemma XorComplement(c: bv16)
    ensures c ^ !c == 0xffff
  {
  }

  lemma JoinSplit(v: bv16, x: bv16, y: bv16)
    requires x <= 0xff && y <= 0xff
    ensures x ^ (y << 8) == v <==> x == v & 0xff && y == v >> 8
  {
  }

  lemma XorAssociative(a: bv16, b: bv16, c: bv16)
    ensures Xor(Xor(a, b), c) == Xor(a, Xor(b, c))
  {
  }

  lemma OnesToComplement(c: bv16, w: bv16)
    requires Xor(c, w) == 0xffff
    ensures w == !c
  {
    XorOnes(c, w);
  }

  lemma ComplementToOnes(c: bv16, w: bv16)
    requires w == !c
    ensures Xor(c, w) == 0xffff
  {
    XorComplement(c);
  }

  lemma WordToHalves(v: bv16, x: bv16, y: bv16)
    requires x <= 0xff && y <= 0xff && Xor(x, y << 8) == v
    ensures x == v & 0xff && y == v >> 8
  {
    JoinSplit(v, x, y);
  }

  lemma HalvesToWord(v: bv16, x: bv16, y: bv16)
    requires x <= 0xff && y <= 0xff && x == v & 0xff && y == v >> 8
    ensures Xor(x, y << 8) == v
  {
    JoinSplit(v, x, y);
  }

  lemma OnesToHalves(c: bv16, x: bv16, y: bv16, high: bv16)
    requires x <= 0xff && y <= 0xff && high == y << 8
    requires Xor(Xor(c, x), high) == 0xffff
    ensures x == !c & 0xff && y == !c >> 8
  {
    XorAssociative(c, x, high);
    OnesToComplement(c, Xor(x, high));
    WordToHalves(!c, x, y);
  }

  lemma ComplementCompletes(c: bv16, x: bv16, high: bv16)
    requires Xor(x, high) == !c
    ensures Xor(Xor(c, x), high) == 0xffff
  {
    XorAssociative(c, x, high);
    ComplementToOnes(c, Xor(x, high));
  }

  lemma HalvesToOnes(c: bv16, x: bv16, y: bv16, high: bv16)
    requires x <= 0xff && y <= 0xff && high == y << 8
    requires x == !c & 0xff && y == !c >> 8
    ensures Xor(Xor(c, x), high) == 0xffff
  {
    HalvesToWord(!c, x, y);
    ComplementCompletes(c, x, high);
  }

  /** Two bytes bring a value to all ones exactly when they are the halves of its complement. */
  lemma ComplementSplit(c: bv16, x: bv16, y: bv16)
    requires x <= 0xff && y <= 0xff
    ensures Xor(Xor(c, x), y << 8) == 0xffff <==> x == !c & 0xff && y == !c >> 8
  {
    if Xor(Xor(c, x), y << 8) == 0xffff {
      OnesToHalves(c, x, y, y << 8);
    }
    if x == !c & 0xff && y == !c >> 8 {
      HalvesToOnes(c, x, y, y << 8);
    }
  }

  lemma CrcAppend(message: bytes, b: byte)
    ensures CrcOf(message + [b]) == Absorb(CrcOf(message), b)
  {
    assert (message + [b])[..|message|] == message;
  }

  lemma CrcAppendTwo(message: bytes, x: byte, y: byte)
    ensures CrcOf(message + [x, y]) == Shifts(Xor(Xor(CrcOf(message), Wide(x)), Wide(y) << 8), 16)
  {
    assert message + [x, y] == (message + [x]) + [y];
    CrcAppend(message, x);
    CrcAppend(message + [x], y);
    TwoBytes(CrcOf(message), x, y);
  }

  lemma ResidueIffOnes(v: bv16)
    ensures Shifts(v, 16) == RESIDUE <==> v == 0xffff
  {
    ResidueOfOnes();
    if Shifts(v, 16) == RESIDUE {
      ShiftsInjective(v, 0xffff, 16);
    }
  }

  /** A message with two more bytes leaves the residue exactly when they are the
      little-endian complement of the message's own CRC. */
  lemma ResidueCharacterizes(message: bytes, x: byte, y: byte)
    ensures CrcOf(message + [x, y]) == RESIDUE
            <==> Wide(x) == !CrcOf(message) & 0xff && Wide(y) == !CrcOf(message) >> 8
  {
    CrcAppendTwo(message, x, y);
    ResidueIffOnes(Xor(Xor(CrcOf(message), Wide(x)), Wide(y) << 8));
    ComplementSplit(CrcOf(message), Wide(x), Wide(y));
  }

  lemma AbsorbUnrolled(crc: bv16, b: byte)
    ensures
      var x := Xor(crc, Wide(b));
      Absorb(crc, b) == Shift(Shift(Shift(Shift(Shift(Shift(Shift(Shift(x))))))))
  {
    Unroll8(Xor(crc, Wide(b)));
  }

  lemma CheckStep(crc: bv16, b: byte, next: bv16)
    requires var x := Xor(crc, Wide(b));
             Shift(Shift(Shift(Shift(Shift(Shift(Shift(Shift(x)))))))) == next
    ensures Absorb(crc, b) == next
  {
    AbsorbUnrolled(crc, b);
  }

  const CHECK: bytes := [0x31, 0x32, 0x33, 0x34, 0x35, 0x36, 0x37, 0x38, 0x39]

  lemma CheckSteps()
    ensures Absorb(0xffff, 0x31) == 0x2f8d
    ensures Absorb(0x2f8d, 0x32) == 0x4d53
    ensures Absorb(0x4d53, 0x33) == 0x634b
    ensures Absorb(0x634b, 0x34) == 0x8b13
    ensures Absorb(0x8b13, 0x35) == 0x44bf
    ensures Absorb(0x44bf, 0x36) == 0x198d
    ensures Absorb(0x198d, 0x37) == 0x1ac8
    ensures Absorb(0x1ac8, 0x38) == 0xf795
    ensures Absorb(0xf795, 0x39) == 0x6f91
  {
    CheckStep(0xffff, 0x31, 0x2f8d);
    CheckStep(0x2f8d, 0x32, 0x4d53);
    CheckStep(0x4d53, 0x33, 0x634b);
    CheckStep(0x634b, 0x34, 0x8b13);
    CheckStep(0x8b13, 0x35, 0x44bf);
    CheckStep(0x44bf, 0x36, 0x198d);
    CheckStep(0x198d, 0x37, 0x1ac8);
    CheckStep(0x1ac8, 0x38, 0xf795);
    CheckStep(0xf795, 0x39, 0x6f91);
  }

  /** The published check value of this CRC, over the digits 1 to 9: it fixes polynomial, bit order
      and initial value. */
  lemma CheckValue()
    ensures CrcOf([]) == 0xffff && CrcOf(CHECK) == 0x6f91
  {
    CheckSteps();
    CrcAppend(CHECK[..0], 0x31);
    assert CHECK[..0] + [0x31] == CHECK[..1];
    CrcAppend(CHECK[..1], 0x32);
    assert CHECK[..1] + [0x32] == CHECK[..2];
    CrcAppend(CHECK[..2], 0x33);
    assert CHECK[..2] + [0x33] == CHECK[..3];
    CrcAppend(CHECK[..3], 0x34);
    assert CHECK[..3] + [0x34] == CHECK[..4];
    CrcAppend(CHECK[..4], 0x35);
    assert CHECK[..4] + [0x35] == CHECK[..5];
    CrcAppend(CHECK[..5], 0x36);
    assert CHECK[..5] + [0x36] == CHECK[..6];
    CrcAppend(CHECK[..6], 0x37);
    assert CHECK[..6] + [0x37] == CHECK[..7];
    CrcAppend(CHECK[..7], 0x38);
    assert CHECK[..7] + [0x38] == CHECK[..8];
    CrcAppend(CHECK[..8], 0x39);
    assert CHECK[..8] + [0x39] == CHECK[..9];
    assert CHECK[..0] == [] && CHECK[..9] == CHECK;
  }
}
