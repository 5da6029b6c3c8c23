/** Bytes seen as eight bits: bit operations are stated on `bv8` and lifted here. */
module Bits {
  type byte = x: int | 0 <= x < 0x100

  function ToBits(b: byte): bv8 {
    b as bv8
  }

  function ToByte(x: bv8): (b: byte)
    ensures ToBits(b) == x
  {
    x as byte
  }
}

/** Fixed-width integers and byte strings of the wire protocol. */
module Bytes {
  import B = Bits

  type byte = B.byte
  type u16 = x: int | 0 <= x < 0x1_0000
  type u32 = x: int | 0 <= x < 0x1_0000_0000
  type u64 = x: int | 0 <= x < 0x1_0000_0000_0000_0000
  type bytes = seq<byte>

  const U64_MODULUS := 0x1_0000_0000_0000_0000

  function Zeros(n: nat): (s: bytes)
    ensures |s| == n
  {
    seq(n, _ => 0)
  }

  function EncodeU16(n: u16): (s: bytes)
    ensures |s| == 2 && DecodeU16(s) == n
  {
    [n / 0x100, n % 0x100]
  }

  function DecodeU16(s: bytes): u16
    requires |s| == 2
  {
    (s[0] as int) * 0x100 + s[1]
  }

  lemma DecodeU16Inverse(s: bytes)
    requires |s| == 2
    ensures EncodeU16(DecodeU16(s)) == s
  {
  }

  function EncodeU32(n: u32): (s: bytes)
    ensures |s| == 4
  {
    EncodeU16(n / 0x1_0000) + EncodeU16(n % 0x1_0000)
  }

  lemma EncodeU32Injective(m: u32, n: u32)
    requires EncodeU32(m) == EncodeU32(n)
    ensures m == n
  {
    assert EncodeU32(m)[..2] == EncodeU16(m / 0x1_0000) && EncodeU32(m)[2..] == EncodeU16(m % 0x1_0000);
    assert EncodeU32(n)[..2] == EncodeU16(n / 0x1_0000) && EncodeU32(n)[2..] == EncodeU16(n % 0x1_0000);
  }

  /** Do two 16-bit masks share a bit? */
  predicate Meets(a: u16, b: u16) {
    (a as bv16) & (b as bv16) != 0
  }

  /** Is every bit of `a` also in `b`? */
  predicate Within(a: u16, b: u16) {
    (a as bv16) & !(b as bv16) == 0
  }

  lemma WithinTransitive(a: u16, b: u16, c: u16)
    requires Within(a, b) && Within(b, c)
    ensures Within(a, c)
  {
  }

  lemma BitsMeet(a: u16, b: u16)
    requires Within(a, b) && a as bv16 != 0
    ensures Meets(b, a)
  {
  }

  lemma NonZeroBits(a: u16)
    requires a != 0
    ensures a as bv16 != 0
  {
  }

  lemma WithinMeets(a: u16, b: u16)
    requires Within(a, b) && a != 0
    ensures Meets(b, a)
  {
    NonZeroBits(a);
    BitsMeet(a, b);
  }

  /** A byte with one bit set; `bit` is its value. */
  function SetBit(b: byte, bit: nat): (r: byte)
    requires bit in {0x10, 0x80}
  {
    if (b / bit) % 2 == 1 then b else b + bit
  }
}

/** Error codes of the wire protocol and the result type built on them. */
module Errors {
  import opened Bytes

  datatype Option<+T> = None | Some(value: T)

  datatype DeviceError =
    | InvalidCommand
    | InvalidData
    | InvalidSession
    | AuthenticationFailed
    | SessionsFull
    | SessionFailed
    | StorageFailed
    | WrongLength
    | InsufficientPermissions
    | LogFull
    | ObjectNotFound
    | InvalidId
    | SshCaConstraintViolation
    | InvalidOtp
    | DemoMode
    | ObjectExists
  {
    function Code(): byte {
      match this
      case InvalidCommand => 0x01
      case InvalidData => 0x02
      case InvalidSession => 0x03
      case AuthenticationFailed => 0x04
      case SessionsFull => 0x05
      case SessionFailed => 0x06
      case StorageFailed => 0x07
      case WrongLength => 0x08
      case InsufficientPermissions => 0x09
      case LogFull => 0x0a
      case ObjectNotFound => 0x0b
      case InvalidId => 0x0c
      case SshCaConstraintViolation => 0x0e
      case InvalidOtp => 0x0f
      case DemoMode => 0x10
      case ObjectExists => 0x11
    }
  }

  /** Errors are told apart by their code, and none looks like success. */
  lemma CodesDiffer(a: DeviceError, b: DeviceError)
    ensures a.Code() == b.Code() ==> a == b
    ensures 1 <= a.Code() <= 0x11
  {
  }

  datatype Result<+T> = Ok(value: T) | Err(error: DeviceError) {
    predicate IsFailure() {
      Err?
    }

    function PropagateFailure<U>(): Result<U>
      requires Err?
    {
      Err(error)
    }

    function Extract(): T
      requires Ok?
    {
      value
    }
  }

  /** The byte an audit entry records for a result. */
  function ResultCode<T>(r: Result<T>): byte {
    if r.Err? then r.error.Code() else 0
  }
}
