/** Outer and inner frames: command byte, big-endian length, data. */
module Frames {
  import opened Bytes
  import opened Errors

  const HEADER_LENGTH := 3
  const MAX_FRAME_LENGTH := 8192
  const MAX_DATA_LENGTH := MAX_FRAME_LENGTH - HEADER_LENGTH
  const ERROR_COMMAND: byte := 0x7f

  datatype Frame = Frame(command: byte, data: bytes) {
    predicate Valid() {
      |data| <= MAX_DATA_LENGTH
    }
  }

  function NewFrame(command: byte, data: bytes): Result<Frame> {
    if |data| > MAX_DATA_LENGTH then Err(WrongLength) else Ok(Frame(command, data))
  }

  function Parse(encoded: bytes): Result<Frame> {
    if |encoded| < HEADER_LENGTH then Err(WrongLength)
    else
      var length := DecodeU16(encoded[1..3]);
      if length > MAX_DATA_LENGTH || |encoded| != HEADER_LENGTH + length then Err(WrongLength)
      else NewFrame(encoded[0], encoded[HEADER_LENGTH..])
  }

  /** The length field keeps sixteen bits of the data length. */
  function Encode(f: Frame): bytes {
    [f.command] + EncodeU16(|f.data| % 0x1_0000) + f.data
  }

  function Response(command: byte, data: bytes): Frame {
    Frame(SetBit(command, 0x80), data)
  }

  function ErrorFrame(error: DeviceError): Frame {
    Frame(ERROR_COMMAND, [error.Code()])
  }

  function ResultFrame(command: byte, r: Result<bytes>): Frame {
    if r.Ok? then Response(command, r.value) else ErrorFrame(r.error)
  }

  /** Parsing undoes encoding, and accepts nothing but encodings of valid frames. */
  lemma ParseExactly(encoded: bytes, f: Frame)
    ensures Parse(encoded) == Ok(f) <==> f.Valid() && encoded == Encode(f)
  {
    if Parse(encoded) == Ok(f) {
      DecodeU16Inverse(encoded[1..3]);
      assert encoded == [encoded[0]] + encoded[1..3] + encoded[3..];
    }
    if f.Valid() && encoded == Encode(f) {
      assert encoded[1..3] == EncodeU16(|f.data|);
      assert encoded[3..] == f.data;
    }
  }

  lemma ParseEncode(f: Frame)
    requires f.Valid()
    ensures Parse(Encode(f)) == Ok(f)
  {
    ParseExactly(Encode(f), f);
  }

  /** A frame is its command, the length of its data most significant byte first, and its data. */
  lemma FrameLayout(command: byte, data: bytes)
    requires |data| <= 8189
    ensures
      var e := Encode(Frame(command, data));
      |e| == 3 + |data| && e[0] == command && (e[1] as int) * 0x100 + e[2] == |data| && e[3..] == data
  {
    assert |data| % 0x1_0000 == |data|;
  }

  /** A successful answer has the command with its top bit set; a failed one has command 0x7f and
      the code of the error. */
  lemma AnswersExactly(command: byte, r: Result<bytes>)
    requires command < 0x80
    ensures ResultFrame(command, r) == if r.Ok? then Frame(0x80 + command, r.value) else Frame(0x7f, [r.error.Code()])
  {
  }

  method EncodeBuffer(f: Frame) returns (encoded: bytes)
    ensures encoded == Encode(f)
  {
    encoded := [];
    encoded := encoded + [f.command];
    encoded := encoded + EncodeU16(|f.data| % 0x1_0000);
    encoded := encoded + f.data;
  }
}

/** ISO/IEC 7816-4 padding and the size of the secure envelope around a response. */
module Envelope {
  import opened Bytes
  import opened Errors
  import opened Frames

  const BLOCK_SIZE := 16
  const MAC_LENGTH := 8
  const MAX_INNER_DATA := 8172

  function RoundUp(n: nat): nat {
    (n + BLOCK_SIZE - 1) / BLOCK_SIZE * BLOCK_SIZE
  }

  function Pad(data: bytes): (p: bytes)
    ensures |p| == RoundUp(|data| + 1) && |p| % BLOCK_SIZE == 0
  {
    RoundUpBounds(|data| + 1);
    data + [0x80] + Zeros(RoundUp(|data| + 1) - |data| - 1)
  }

  lemma RoundUpBounds(n: nat)
    ensures n <= RoundUp(n) < n + BLOCK_SIZE && RoundUp(n) % BLOCK_SIZE == 0
  {
  }

  /** Strip trailing zeros, then require and drop the 0x80 marker. */
  function Unpad(data: bytes): Result<bytes>
    decreases |data|
  {
    if data == [] then Err(InvalidData)
    else
      var last := data[|data| - 1];
      if last == 0 then Unpad(data[..|data| - 1])
      else if last == 0x80 then Ok(data[..|data| - 1])
      else Err(InvalidData)
  }

  lemma {:induction false} UnpadZeros(data: bytes, n: nat)
    ensures Unpad(data + [0x80] + Zeros(n)) == Ok(data)
  {
    var whole := data + [0x80] + Zeros(n);
    if n == 0 {
      assert whole == data + [0x80];
      assert whole[..|whole| - 1] == data;
    } else {
      UnpadZeros(data, n - 1);
      assert whole[..|whole| - 1] == data + [0x80] + Zeros(n - 1);
    }
  }

  lemma UnpadPad(data: bytes)
    ensures Unpad(Pad(data)) == Ok(data)
  {
    RoundUpBounds(|data| + 1);
    UnpadZeros(data, RoundUp(|data| + 1) - |data| - 1);
  }

  /** Unpadding accepts exactly data, the marker, and any number of zeros. */
  lemma {:induction false} UnpadExactly(padded: bytes, data: bytes)
    ensures Unpad(padded) == Ok(data) <==> exists n: nat :: padded == data + [0x80] + Zeros(n)
    decreases |padded|
  {
    if n: nat :| padded == data + [0x80] + Zeros(n) {
      UnpadZeros(data, n);
    }
    if Unpad(padded) == Ok(data) {
      var last := |padded| - 1;
      if padded[last] == 0 {
        UnpadExactly(padded[..last], data);
        var n: nat :| padded[..last] == data + [0x80] + Zeros(n);
        assert padded == data + [0x80] + Zeros(n + 1);
      } else {
        assert padded == data + [0x80] + Zeros(0);
      }
    }
  }

  function EnvelopeDataLength(innerData: nat): nat {
    1 + RoundUp(HEADER_LENGTH + innerData + 1) + MAC_LENGTH
  }

  predicate SecureResponseDataFits(innerData: nat) {
    EnvelopeDataLength(innerData) <= MAX_DATA_LENGTH
  }

  predicate SecureResponseFits(response: Frame) {
    SecureResponseDataFits(|response.data|)
  }

  /** The limit in one number. */
  lemma FitsExactly(innerData: nat)
    ensures SecureResponseDataFits(innerData) <==> innerData <= MAX_INNER_DATA
  {
    RoundUpBounds(HEADER_LENGTH + innerData + 1);
  }

  /** The check decides whether the padded, session-tagged, MACed outer frame is a frame. */
  lemma FitsMeansFrame(inner: Frame, sid: byte, mac: bytes)
    requires |mac| == MAC_LENGTH
    ensures SecureResponseFits(inner) <==> NewFrame(0x85, [sid] + Pad(Encode(inner)) + mac).Ok?
    ensures SecureResponseFits(inner)
            <==> |Encode(Frame(0x85, [sid] + Pad(Encode(inner)) + mac))| <= MAX_FRAME_LENGTH
  {
  }
}
