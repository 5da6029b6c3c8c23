/** The bounds-checked reader of the positional command encoding. */
module Wire {
  import opened Bytes
  import opened Errors

  class Reader {
    var remaining: bytes

    constructor (encoded: bytes)
      ensures remaining == encoded
    {
      remaining := encoded;
    }

    method ReadSlice(length: nat) returns (r: Result<bytes>)
      modifies this
      ensures |old(remaining)| < length ==> r == Err(WrongLength) && remaining == old(remaining)
      ensures |old(remaining)| >= length ==>
                r == Ok(old(remaining)[..length]) && remaining == old(remaining)[length..]
    {
      if |remaining| < length {
        return Err(WrongLength);
      }
      r := Ok(remaining[..length]);
      remaining := remaining[length..];
    }

    method ReadU8() returns (r: Result<byte>)
      modifies this
      ensures old(remaining) == [] ==> r == Err(WrongLength) && remaining == []
      ensures old(remaining) != [] ==> r == Ok(old(remaining)[0]) && remaining == old(remaining)[1..]
    {
      var s := ReadSlice(1);
      r := if s.Err? then Err(s.error) else Ok(s.value[0]);
    }
  }
}

/** Typed requests decoded from command payloads. */
module Requests {
  import opened Bytes
  import opened Errors
  import opened Capabilities
  import opened Objects
  import opened Protocol
  import Cmd
  import opened Wire

  /** A label ends at its first zero byte. */
  function TrimLabel(s: bytes): (r: bytes)
    ensures |r| <= |s| && r <= s
    ensures 0 !in r && (|r| < |s| ==> s[|r|] == 0)
  {
    if s == [] || s[0] == 0 then [] else [s[0]] + TrimLabel(s[1..])
  }

  // ----- object headers

  datatype Header = Header(requestedId: u16, labelBytes: bytes, domains: u16, capabilities: CapabilitySet, algorithm: byte)

  datatype Shape = PlainShape | DelegatedShape | OtpShape

  datatype ObjectRequest = ObjectRequest(header: Header, delegated: CapabilitySet, nonceId: bytes, material: bytes)

  const HEADER_SIZE := 53

  function HeaderOf(d: bytes): Header
    requires |d| >= HEADER_SIZE
  {
    Header(DecodeU16(d[..2]), d[2..42], DecodeU16(d[42..44]), d[44..52], d[52])
  }

  function DecodeObject(shape: Shape, d: bytes): Result<ObjectRequest> {
    match shape
    case PlainShape =>
      if |d| < HEADER_SIZE then Err(WrongLength)
      else Ok(ObjectRequest(HeaderOf(d), NO_CAPABILITIES, [], d[HEADER_SIZE..]))
    case DelegatedShape =>
      if |d| < HEADER_SIZE + 8 then Err(WrongLength)
      else Ok(ObjectRequest(HeaderOf(d), d[HEADER_SIZE..HEADER_SIZE + 8], [], d[HEADER_SIZE + 8..]))
    case OtpShape =>
      if |d| < HEADER_SIZE + 4 then Err(WrongLength)
      else Ok(ObjectRequest(HeaderOf(d), NO_CAPABILITIES, d[HEADER_SIZE..HEADER_SIZE + 4], d[HEADER_SIZE + 4..]))
  }

  // ----- requests that name an object

  function DecodeId(d: bytes): Result<u16> {
    if |d| != 2 then Err(WrongLength) else Ok(DecodeU16(d))
  }

  function DecodeObjectKey(d: bytes): Result<ObjectKey> {
    if |d| < 3 then Err(WrongLength)
    else
      var t :- FromOption(TypeFromByte(d[2]), InvalidData);
      if |d| != 3 then Err(WrongLength) else Ok(ObjectKey(t, DecodeU16(d[..2])))
  }

  /** The type byte is optional. */
  function DecodePublicKey(d: bytes): Result<ObjectKey> {
    if |d| < 2 then Err(WrongLength)
    else
      var id := DecodeU16(d[..2]);
      if |d| == 2 then Ok(ObjectKey(AsymmetricKey, id))
      else if |d| == 3 then
        var t :- FromOption(TypeFromByte(d[2]), InvalidData);
        Ok(ObjectKey(t, id))
      else Err(WrongLength)
  }

  datatype ExportRequest = ExportRequest(wrapId: u16, target: ObjectKey)

  /** `tail` bytes follow the target; the AES form has at most one. */
  function DecodeExport(d: bytes, rsa: bool): Result<ExportRequest> {
    if |d| < 3 then Err(WrongLength)
    else
      var t :- FromOption(TypeFromByte(d[2]), InvalidData);
      if |d| < 5 || (rsa && |d| < 8) || (!rsa && |d| > 6) then Err(WrongLength)
      else Ok(ExportRequest(DecodeU16(d[..2]), ObjectKey(t, DecodeU16(d[3..5]))))
  }

  // ----- filters

  datatype Filters = Filters(
    id: Option<u16>,
    objectType: Option<ObjectType>,
    domains: Option<u16>,
    capabilities: Option<CapabilitySet>,
    algorithm: Option<byte>,
    labelBytes: Option<bytes>)

  const NO_FILTERS := Filters(None, None, None, None, None, None)

  function FilterSize(tag: byte): Option<nat> {
    match tag
    case 1 => Some(2)
    case 2 => Some(1)
    case 3 => Some(2)
    case 4 => Some(8)
    case 5 => Some(1)
    case 6 => Some(40)
    case _ => None
  }

  function AddFilter(f: Filters, tag: byte, v: bytes): Result<Filters>
    requires FilterSize(tag) == Some(|v|)
  {
    match tag
    case 1 => Ok(f.(id := Some(DecodeU16(v))))
    case 2 =>
      var t :- FromOption(TypeFromByte(v[0]), InvalidData);
      Ok(f.(objectType := Some(t)))
    case 3 => Ok(f.(domains := Some(DecodeU16(v))))
    case 4 => Ok(f.(capabilities := Some(v)))
    case 5 => Ok(f.(algorithm := Some(v[0])))
    case _ => Ok(f.(labelBytes := Some(TrimLabel(v))))
  }

  /** Later filters of the same kind replace earlier ones. */
  function DecodeFilters(f: Filters, d: bytes): Result<Filters>
    decreases |d|
  {
    if d == [] then Ok(f)
    else
      var size := FilterSize(d[0]);
      if size.None? then Err(InvalidData)
      else if |d| < 1 + size.value then Err(WrongLength)
      else
        var next :- AddFilter(f, d[0], d[1..1 + size.value]);
        DecodeFilters(next, d[1 + size.value..])
  }

  method DecodeFiltersLoop(reader: Reader) returns (r: Result<Filters>)
    modifies reader
    ensures r == DecodeFilters(NO_FILTERS, old(reader.remaining))
    ensures r.Ok? ==> reader.remaining == []
  {
    var f := NO_FILTERS;
    while |reader.remaining| != 0
      invariant DecodeFilters(NO_FILTERS, old(reader.remaining)) == DecodeFilters(f, reader.remaining)
      decreases |reader.remaining|
    {
      ghost var before := reader.remaining;
      var tag := reader.ReadU8();
      var size := FilterSize(tag.value);
      if size.None? {
        return Err(InvalidData);
      }
      var v := reader.ReadSlice(size.value);
      if v.Err? {
        return Err(v.error);
      }
      assert v.value == before[1..1 + size.value];
      assert reader.remaining == before[1 + size.value..];
      var next := AddFilter(f, tag.value, v.value);
      if next.Err? {
        return Err(next.error);
      }
      f := next.value;
    }
    r := Ok(f);
  }

  predicate Matches(f: Filters, info: ObjectInfo) {
    && (f.id.Some? ==> info.id == f.id.value)
    && (f.objectType.Some? ==> info.objectType == f.objectType.value)
    && (f.domains.Some? ==> Meets(info.domains, f.domains.value))
    && (f.capabilities.Some? ==> ContainsAll(info.capabilities, f.capabilities.value))
    && (f.algorithm.Some? ==> info.algorithm == f.algorithm.value)
    && (f.labelBytes.Some? ==> info.labelBytes == f.labelBytes.value)
  }

  // ----- commands that use one key

  datatype KeyUse = KeyUse(objectType: ObjectType, capability: Capability, minimum: nat, exact: bool)

  function KeyUseOf(c: CommandCode): Option<KeyUse> {
    match c
    case 0x47 /* SignPkcs1 */ => Some(KeyUse(AsymmetricKey, SIGN_PKCS, 2, false))
    case 0x55 /* SignPss */ => Some(KeyUse(AsymmetricKey, SIGN_PSS, 5, false))
    case 0x56 /* SignEcdsa */ => Some(KeyUse(AsymmetricKey, SIGN_ECDSA, 2, false))
    case 0x6a /* SignEddsa */ => Some(KeyUse(AsymmetricKey, SIGN_EDDSA, 2, false))
    case 0x0d /* SignMlDsa */ => Some(KeyUse(AsymmetricKey, SIGN_ML_DSA, 5, false))
    case 0x0e /* EncapsulateMlKem */ => Some(KeyUse(AsymmetricKey, ENCAPSULATE_ML_KEM, 2, true))
    case 0x0f /* DecapsulateMlKem */ => Some(KeyUse(AsymmetricKey, DECAPSULATE_ML_KEM, 2, false))
    case 0x10 /* EncapsulateHybridKem */ => Some(KeyUse(AsymmetricKey, ENCAPSULATE_HYBRID_KEM, 2, true))
    case 0x11 /* DecapsulateHybridKem */ => Some(KeyUse(AsymmetricKey, DECAPSULATE_HYBRID_KEM, 2, false))
    case 0x57 /* DeriveEcdh */ => Some(KeyUse(AsymmetricKey, DERIVE_ECDH, 2, false))
    case 0x0c /* DeriveEcdhKdf */ => Some(KeyUse(AsymmetricKey, DERIVE_ECDH_KDF, 11, false))
    case 0x49 /* DecryptPkcs1 */ => Some(KeyUse(AsymmetricKey, DECRYPT_PKCS, 2, false))
    case 0x59 /* DecryptOaep */ => Some(KeyUse(AsymmetricKey, DECRYPT_OAEP, 3, false))
    case 0x53 /* SignHmac */ => Some(KeyUse(HmacKey, SIGN_HMAC, 2, false))
    case 0x5c /* VerifyHmac */ => Some(KeyUse(HmacKey, VERIFY_HMAC, 2, false))
    case 0x68 /* WrapData */ => Some(KeyUse(WrapKey, WRAP_DATA, 2, false))
    case 0x69 /* UnwrapData */ => Some(KeyUse(WrapKey, UNWRAP_DATA, 2, false))
    case 0x70 /* EncryptEcb */ => Some(KeyUse(SymmetricKey, ENCRYPT_ECB, 2, false))
    case 0x6f /* DecryptEcb */ => Some(KeyUse(SymmetricKey, DECRYPT_ECB, 2, false))
    case 0x72 /* EncryptCbc */ => Some(KeyUse(SymmetricKey, ENCRYPT_CBC, 18, false))
    case 0x71 /* DecryptCbc */ => Some(KeyUse(SymmetricKey, DECRYPT_CBC, 18, false))
    case 0x61 /* CreateOtpAead */ => Some(KeyUse(OtpAeadKey, CREATE_OTP_AEAD, 24, true))
    case 0x62 /* RandomizeOtpAead */ => Some(KeyUse(OtpAeadKey, RANDOMIZE_OTP_AEAD, 2, true))
    case 0x60 /* DecryptOtp */ => Some(KeyUse(OtpAeadKey, DECRYPT_OTP, 54, true))
    case _ => None
  }

  /** `prehash` is the library's table of ML-DSA prehash digest lengths. */
  function DecodeUse(prehash: byte -> Option<nat>, c: CommandCode, use: KeyUse, d: bytes): Result<u16>
    requires KeyUseOf(c) == Some(use)
  {
    if c == Cmd.SignMlDsa && |d| >= 4 && d[3] != 0 && prehash(d[3]).None? then Err(InvalidData)
    else if |d| < use.minimum || (use.exact && |d| != use.minimum) then Err(WrongLength)
    else if c == Cmd.SignMlDsa && (|d| - 5 < d[4] || (d[3] != 0 && |d| - 5 - d[4] != prehash(d[3]).value)) then Err(WrongLength)
    else if c == Cmd.DeriveEcdhKdf && |d| != 11 + DecodeU16(d[5..7]) + DecodeU16(d[7..9]) + DecodeU16(d[9..11]) then
      Err(WrongLength)
    else Ok(DecodeU16(d[..2]))
  }

  predicate BlockAligned(n: int) {
    n >= 16 && n % 16 == 0
  }

  /** Refusals that precede the handler's lookup. `fits` is the response-size check. */
  function EarlyRefusal(fits: nat -> bool, c: CommandCode, d: bytes): Option<DeviceError> {
    match c
    case 0x47 /* SignPkcs1 */ => if |d| == 2 then Some(WrongLength) else None
    case 0x55 /* SignPss */ => if |d| == 5 then Some(WrongLength) else None
    case 0x56 /* SignEcdsa */ => if |d| == 2 then Some(WrongLength) else None
    case 0x0f /* DecapsulateMlKem */ => if |d| == 2 then Some(WrongLength) else None
    case 0x57 /* DeriveEcdh */ => if |d| == 2 then Some(WrongLength) else None
    case 0x49 /* DecryptPkcs1 */ => if |d| == 2 then Some(WrongLength) else None
    case 0x0c /* DeriveEcdhKdf */ =>
      if |d| < 5 || !(1 <= d[2] <= 9) then Some(InvalidData)
      else if DecodeU16(d[3..5]) == 0 || !fits(DecodeU16(d[3..5])) then Some(WrongLength)
      else None
    case 0x69 /* UnwrapData */ => if |d| < 2 + 30 || d[2] != 1 then Some(WrongLength) else None
    case 0x70 /* EncryptEcb */ => if BlockAligned(|d| - 2) then None else Some(WrongLength)
    case 0x6f /* DecryptEcb */ => if BlockAligned(|d| - 2) then None else Some(WrongLength)
    case 0x72 /* EncryptCbc */ => if BlockAligned(|d| - 18) then None else Some(WrongLength)
    case 0x71 /* DecryptCbc */ => if BlockAligned(|d| - 18) then None else Some(WrongLength)
    case _ => None
  }

  // ----- audit target identifiers

  function FirstU16(d: bytes): u16 {
    if |d| < 2 then 0 else DecodeU16(d[..2])
  }

  function AuditKeyIds(c: CommandCode, d: bytes): (u16, u16) {
    match c
    case 0x64 /* SignAttestationCertificate */ => if |d| == 4 then (DecodeU16(d[..2]), DecodeU16(d[2..])) else (0, 0)
    case 0x63 /* RewrapOtpAead */ => if |d| == 40 then (DecodeU16(d[..2]), DecodeU16(d[2..4])) else (0, 0)
    case 0x4a /* ExportWrapped */ =>
      var r := DecodeExport(d, false);
      if r.Ok? then (r.value.target.id, r.value.wrapId) else (0, 0)
    case 0x76 /* ExportRsaWrapped */ =>
      var r := DecodeExport(d, true);
      if r.Ok? then (r.value.target.id, r.value.wrapId) else (0, 0)
    case _ => (FirstU16(d), 0)
  }
}
