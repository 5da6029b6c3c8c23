/** The private format of a full wrapped object. */
module WrappedObjects {
  import opened Bytes
  import opened Errors
  import opened Capabilities
  import opened Algorithms
  import opened Objects
  import Cbor

  type Value = Cbor.Value

  /** "virtual-yubihsm-object" */
  const SCHEMA: bytes := [
    0x76, 0x69, 0x72, 0x74, 0x75, 0x61, 0x6c, 0x2d, 0x79, 0x75, 0x62,
    0x69, 0x68, 0x73, 0x6d, 0x2d, 0x6f, 0x62, 0x6a, 0x65, 0x63, 0x74]
  const VERSION: byte := 1

  const MATERIAL_SECRET: byte := 0
  const MATERIAL_PKCS8: byte := 1
  const MATERIAL_OPAQUE: byte := 2
  const MATERIAL_PUBLIC: byte := 3
  const MATERIAL_SYMMETRIC_AUTHENTICATION: byte := 4
  const MATERIAL_ASYMMETRIC_AUTHENTICATION: byte := 5
  const MATERIAL_OTP_AEAD: byte := 6

  function ParseAuthentication(lib: KeyLibrary, algorithm: byte, key: bytes): Result<AuthenticationMaterial> {
    if algorithm == AES128_YUBICO_AUTHENTICATION && |key| == 32 then Ok(SymmetricKeys(key))
    else if algorithm == EC_P256_YUBICO_AUTHENTICATION && |key| == 64 then
      if lib.validPoint([0x04] + key) then Ok(HostPublicKey(key)) else Err(InvalidData)
    else if AuthenticationKeyLength(algorithm).Some? then Err(WrongLength)
    else Err(InvalidData)
  }

  predicate MaterialFits(lib: KeyLibrary, r: ObjectRecord) {
    var a := r.info.algorithm;
    match r.material
    case OpaqueBytes(_) =>
      || (r.info.objectType.OpaqueObject? && (a == OPAQUE_DATA || a == OPAQUE_X509_CERTIFICATE))
      || (r.info.objectType.Template? && a == TEMPLATE_SSH)
    case Authentication(key) =>
      r.info.objectType.AuthenticationKey? && ParseAuthentication(lib, a, key.value) == Ok(key)
    case PrivateKey(k, _) =>
      || (r.info.objectType.AsymmetricKey? && k == a && AsymmetricKeyLength(a).Some?)
      || (r.info.objectType.WrapKey? && IsRsaKey(a) && IsRsaKey(k))
    case Secret(value) =>
      || (r.info.objectType.WrapKey? && IsCcmWrap(a) && AesKeyLength(a) == Some(|value|))
      || (r.info.objectType.HmacKey? && HmacObjectLength(a).Some? && 1 <= |value| <= 128)
      || (r.info.objectType.SymmetricKey? && IsAes(a) && AesKeyLength(a) == Some(|value|))
    case OtpAead(_, key) =>
      r.info.objectType.OtpAeadKey? && IsYubicoOtp(a) && AesKeyLength(a) == Some(|key|)
    case PublicModulus(value) =>
      r.info.objectType.PublicWrapKey? && IsRsaKey(a) && AsymmetricKeyLength(a) == Some(|value|)
  }

  function ValidateWrapped(lib: KeyLibrary, r: ObjectRecord): Result<()> {
    var _ :- Validate(r);
    if Known(r.info.algorithm) && MaterialFits(lib, r) then Ok(()) else Err(InvalidData)
  }

  /** Only signing and Montgomery keys have a PKCS #8 form here. */
  predicate HasPkcs8(algorithm: byte) {
    !IsMlKem(algorithm) && !IsHybridKem(algorithm)
  }

  function MaterialValue(kind: byte, values: seq<Value>): Value {
    Cbor.Array([Cbor.UInt(kind)] + values)
  }

  function WrappedMaterial(lib: KeyLibrary, r: ObjectRecord): Result<Value> {
    var t := r.info.objectType;
    match r.material
    case PrivateKey(k, encoded) =>
      if r.info.HoldsPrivateKey() && HasPkcs8(k) then
        Ok(MaterialValue(MATERIAL_PKCS8, [Cbor.ByteString(lib.toPkcs8(k, encoded))]))
      else Err(InvalidData)
    case Secret(value) =>
      if t.WrapKey? || t.HmacKey? || t.SymmetricKey? then Ok(MaterialValue(MATERIAL_SECRET, [Cbor.ByteString(value)]))
      else Err(InvalidData)
    case OpaqueBytes(value) =>
      if t.OpaqueObject? || t.Template? then Ok(MaterialValue(MATERIAL_OPAQUE, [Cbor.ByteString(value)]))
      else Err(InvalidData)
    case PublicModulus(value) =>
      if t.PublicWrapKey? then Ok(MaterialValue(MATERIAL_PUBLIC, [Cbor.ByteString(value)])) else Err(InvalidData)
    case Authentication(key) =>
      if !t.AuthenticationKey? then Err(InvalidData)
      else if key.SymmetricKeys? then Ok(MaterialValue(MATERIAL_SYMMETRIC_AUTHENTICATION, [Cbor.ByteString(key.value)]))
      else Ok(MaterialValue(MATERIAL_ASYMMETRIC_AUTHENTICATION, [Cbor.ByteString(key.value)]))
    case OtpAead(nonceId, key) =>
      if t.OtpAeadKey? then
        Ok(MaterialValue(MATERIAL_OTP_AEAD, [Cbor.ByteString(nonceId), Cbor.ByteString(key)]))
      else Err(InvalidData)
  }

  function WrappedFields(info: ObjectInfo, material: Value): seq<Value> {
    [Cbor.Text(SCHEMA), Cbor.UInt(VERSION), Cbor.UInt(info.objectType.Byte()), Cbor.UInt(info.id),
     Cbor.UInt(info.domains), Cbor.ByteString(info.capabilities), Cbor.UInt(info.algorithm),
     Cbor.UInt(info.origin % 0x10), Cbor.ByteString(info.labelBytes), Cbor.ByteString(info.delegated), material]
  }

  function EncodeWrapped(lib: KeyLibrary, r: ObjectRecord): Result<bytes> {
    var _ :- ValidateWrapped(lib, r);
    var material :- WrappedMaterial(lib, r);
    var output := Cbor.Write(Cbor.Array(WrappedFields(r.info, material)));
    if |output| > 0xffff then Err(WrongLength) else Ok(output)
  }

  /** The bytes of a text. */
  predicate Spells(b: bytes, text: string) {
    |b| == |text| && forall i | 0 <= i < |b| :: b[i] == text[i] as int
  }

  lemma SchemaSpelled()
    ensures Spells(SCHEMA, "virtual-yubihsm-object")
  {
  }

  /** Which number tells which kind of material, and what follows it. */
  predicate MaterialForm(lib: KeyLibrary, m: ObjectMaterial, kind: nat, parts: seq<bytes>) {
    match m
    case Secret(value) => kind == 0 && parts == [value]
    case PrivateKey(k, encoded) => kind == 1 && parts == [lib.toPkcs8(k, encoded)]
    case OpaqueBytes(value) => kind == 2 && parts == [value]
    case PublicModulus(value) => kind == 3 && parts == [value]
    case Authentication(key) => kind == (if key.SymmetricKeys? then 4 else 5) && parts == [key.value]
    case OtpAead(nonceId, key) => kind == 6 && parts == [nonceId, key]
  }

  lemma MaterialsTold(lib: KeyLibrary, r: ObjectRecord) returns (kind: nat, parts: seq<bytes>)
    requires WrappedMaterial(lib, r).Ok?
    ensures MaterialForm(lib, r.material, kind, parts)
    ensures WrappedMaterial(lib, r).value
            == Cbor.Array([Cbor.UInt(kind)] + seq(|parts|, i requires 0 <= i < |parts| => Cbor.ByteString(parts[i])))
  {
    match r.material
    case Secret(value) => kind, parts := 0, [value];
    case PrivateKey(k, encoded) => kind, parts := 1, [lib.toPkcs8(k, encoded)];
    case OpaqueBytes(value) => kind, parts := 2, [value];
    case PublicModulus(value) => kind, parts := 3, [value];
    case Authentication(key) => kind, parts := (if key.SymmetricKeys? then 4 else 5), [key.value];
    case OtpAead(nonceId, key) => kind, parts := 6, [nonceId, key];
  }

  // ----- decoding

  function U8Field(v: Value): Result<byte> {
    if v.UInt? && v.n < 0x100 then Ok(v.n) else Err(InvalidData)
  }

  function U16Field(v: Value): Result<u16> {
    if v.UInt? && v.n < 0x1_0000 then Ok(v.n) else Err(InvalidData)
  }

  function BytesField(v: Value): Result<bytes> {
    if v.ByteString? then Ok(v.b) else Err(InvalidData)
  }

  function CapabilityField(v: Value): Result<CapabilitySet> {
    if v.ByteString? && |v.b| == 8 then Ok(v.b) else Err(InvalidData)
  }

  function DecodeMaterial(lib: KeyLibrary, t: ObjectType, algorithm: byte, v: Value): Result<ObjectMaterial> {
    if !v.Array? || v.items == [] then Err(InvalidData)
    else
      var kind :- U8Field(v.items[0]);
      if kind == MATERIAL_OTP_AEAD then
        if !t.OtpAeadKey? || |v.items| != 3 then Err(InvalidData)
        else
          var nonceId :- BytesField(v.items[1]);
          var key :- BytesField(v.items[2]);
          if |nonceId| != 4 then Err(InvalidData) else Ok(OtpAead(nonceId, key))
      else if |v.items| != 2 then Err(InvalidData)
      else
        var value :- BytesField(v.items[1]);
        if kind == MATERIAL_SECRET then
          if (t.WrapKey? || t.HmacKey? || t.SymmetricKey?) && !(t.WrapKey? && IsRsaKey(algorithm)) then Ok(Secret(value))
          else Err(InvalidData)
        else if kind == MATERIAL_PKCS8 then
          if (t.AsymmetricKey? || (t.WrapKey? && IsRsaKey(algorithm))) && HasPkcs8(algorithm) then
            var k :- FromOption(lib.fromPkcs8(algorithm, value), InvalidData);
            Ok(PrivateKey(algorithm, k))
          else Err(InvalidData)
        else if kind == MATERIAL_OPAQUE && (t.OpaqueObject? || t.Template?) then Ok(OpaqueBytes(value))
        else if kind == MATERIAL_PUBLIC && t.PublicWrapKey? then Ok(PublicModulus(value))
        else if kind == MATERIAL_SYMMETRIC_AUTHENTICATION && t.AuthenticationKey? then
          Ok(Authentication(SymmetricKeys(value)))
        else if kind == MATERIAL_ASYMMETRIC_AUTHENTICATION && t.AuthenticationKey? then
          Ok(Authentication(HostPublicKey(value)))
        else Err(InvalidData)
  }

  function DecodeFields(lib: KeyLibrary, f: seq<Value>): Result<ObjectRecord> {
    if |f| != 11 || f[0] != Cbor.Text(SCHEMA) then Err(InvalidData)
    else
      var version :- U8Field(f[1]);
      if version != VERSION then Err(InvalidData)
      else
        var typeByte :- U8Field(f[2]);
        var objectType :- FromOption(TypeFromByte(typeByte), InvalidData);
        var id :- U16Field(f[3]);
        var domains :- U16Field(f[4]);
        var capabilities :- CapabilityField(f[5]);
        var algorithm :- U8Field(f[6]);
        if !Known(algorithm) then Err(InvalidData)
        else
          var origin :- U8Field(f[7]);
          if origin >= 0x10 then Err(InvalidData)
          else
            var labelBytes :- BytesField(f[8]);
            var delegated :- CapabilityField(f[9]);
            var material :- DecodeMaterial(lib, objectType, algorithm, f[10]);
            Ok(ObjectRecord(
                 ObjectInfo(capabilities, id, 0, domains, objectType, algorithm, 0, origin, labelBytes, delegated),
                 material))
  }

  /** `reader` is the CBOR library: it gives the one value that the input holds, if any. */
  function DecodeWrapped(reader: bytes -> Option<Value>, lib: KeyLibrary, data: bytes): Result<ObjectRecord> {
    if |data| > 0xffff then Err(WrongLength)
    else
      var value := reader(data);
      if value.None? || !value.value.Array? then Err(InvalidData)
      else
        var raw :- DecodeFields(lib, value.value.items);
        var record :- NormalizeInfoLength(raw);
        var _ :- Validate(record);
        var again :- EncodeWrapped(lib, record);
        if again != data then Err(InvalidData) else Ok(record)
  }

  // ----- exactness

  /** The only law asked of the reader: it reads what the writer writes. */
  ghost predicate ReadsBack(reader: bytes -> Option<Value>) {
    forall v :: Cbor.Representable(v) ==> reader(Cbor.Write(v)) == Some(v)
  }

  /** What survives wrapping: no sequence, and only the low origin nibble. */
  function Portable(r: ObjectRecord): ObjectRecord {
    r.(info := r.info.(sequence := 0, origin := r.info.origin % 0x10))
  }

  /** OTP nonce identifiers are always four bytes. */
  predicate WellTyped(r: ObjectRecord) {
    r.material.OtpAead? ==> |r.material.nonceId| == 4
  }

  lemma MaterialRoundTrip(lib: KeyLibrary, r: ObjectRecord)
    requires lib.Lawful() && Settled(lib, r) && WellTyped(r)
    requires ValidateWrapped(lib, r).Ok? && WrappedMaterial(lib, r).Ok?
    ensures DecodeMaterial(lib, r.info.objectType, r.info.algorithm, WrappedMaterial(lib, r).value) == Ok(r.material)
  {
  }

  lemma FieldsRoundTrip(lib: KeyLibrary, r: ObjectRecord, material: Value)
    requires Known(r.info.algorithm)
    requires DecodeMaterial(lib, r.info.objectType, r.info.algorithm, material) == Ok(r.material)
    ensures DecodeFields(lib, WrappedFields(r.info, material))
            == Ok(Portable(r).(info := Portable(r).info.(length := 0)))
  {
    var f := WrappedFields(r.info, material);
    assert U8Field(f[2]) == Ok(r.info.objectType.Byte());
    assert U8Field(f[7]) == Ok(r.info.origin % 0x10);
  }

  lemma SmallFields(f: seq<Value>)
    requires |Cbor.Write(Cbor.Array(f))| <= 0xffff
    requires forall i :: 0 <= i < |f| && f[i].UInt? ==> f[i].n < 0x1_0000
    requires forall i :: 0 <= i < |f| && f[i].Array? ==> Cbor.Representable(f[i])
    requires |f| < 0x100
    ensures Cbor.Representable(Cbor.Array(f))
  {
    AllSmall(f);
  }

  lemma {:induction false} AllSmall(f: seq<Value>)
    requires |Cbor.WriteAll(f)| <= 0xffff
    requires forall i :: 0 <= i < |f| && f[i].UInt? ==> f[i].n < 0x1_0000
    requires forall i :: 0 <= i < |f| && f[i].Array? ==> Cbor.Representable(f[i])
    ensures Cbor.AllRepresentable(f)
    decreases |f|
  {
    if f != [] {
      assert |Cbor.WriteAll(f)| == |Cbor.Write(f[0])| + |Cbor.WriteAll(f[1..])|;
      AllSmall(f[1..]);
    }
  }

  lemma {:induction false} WriteAllBound(f: seq<Value>, i: nat)
    requires i < |f|
    ensures |Cbor.Write(f[i])| <= |Cbor.WriteAll(f)|
    decreases |f|
  {
    if i > 0 {
      WriteAllBound(f[1..], i - 1);
    }
  }

  /** What was encoded is within the reader's law. */
  lemma EncodedIsRepresentable(lib: KeyLibrary, r: ObjectRecord)
    requires EncodeWrapped(lib, r).Ok?
    ensures WrappedMaterial(lib, r).Ok?
    ensures Cbor.Representable(Cbor.Array(WrappedFields(r.info, WrappedMaterial(lib, r).value)))
  {
    var material := WrappedMaterial(lib, r).value;
    var f := WrappedFields(r.info, material);
    WriteAllBound(f, 10);
    MaterialIsSmall(lib, r);
    SmallFields(material.items);
    SmallFields(f);
  }

  lemma MaterialIsSmall(lib: KeyLibrary, r: ObjectRecord)
    requires WrappedMaterial(lib, r).Ok?
    ensures
      var material := WrappedMaterial(lib, r).value;
      && material.Array? && |material.items| <= 3
      && forall i :: 0 <= i < |material.items| ==>
           !material.items[i].Array? && (material.items[i].UInt? ==> material.items[i].n < 0x100)
  {
  }

  lemma PortableValidates(lib: KeyLibrary, r: ObjectRecord)
    ensures ValidateWrapped(lib, Portable(r)) == ValidateWrapped(lib, r)
  {
    assert ExpectedInfoLength(Portable(r)) == ExpectedInfoLength(r);
    assert Validate(Portable(r)) == Validate(r);
  }

  lemma PortableFields(r: ObjectRecord, material: Value)
    ensures WrappedFields(Portable(r).info, material) == WrappedFields(r.info, material)
  {
  }

  lemma PortableEncodes(lib: KeyLibrary, r: ObjectRecord)
    ensures EncodeWrapped(lib, Portable(r)) == EncodeWrapped(lib, r)
  {
    PortableValidates(lib, r);
    assert WrappedMaterial(lib, Portable(r)) == WrappedMaterial(lib, r);
    if WrappedMaterial(lib, r).Ok? {
      PortableFields(r, WrappedMaterial(lib, r).value);
    }
  }

  lemma PortableNormalizes(r: ObjectRecord)
    requires Validate(r).Ok?
    ensures NormalizeInfoLength(Portable(r).(info := Portable(r).info.(length := 0))) == Ok(Portable(r))
    ensures Validate(Portable(r)).Ok?
  {
    NormalizeRestores(Portable(r), 0);
  }

  /** Decoding an encoding gives the record back, apart from its sequence and high origin bits. */
  lemma DecodeEncode(reader: bytes -> Option<Value>, lib: KeyLibrary, r: ObjectRecord)
    requires ReadsBack(reader) && lib.Lawful() && Settled(lib, r) && WellTyped(r)
    requires EncodeWrapped(lib, r).Ok?
    ensures DecodeWrapped(reader, lib, EncodeWrapped(lib, r).value) == Ok(Portable(r))
  {
    var data := EncodeWrapped(lib, r).value;
    var material := WrappedMaterial(lib, r).value;
    var value := Cbor.Array(WrappedFields(r.info, material));
    EncodedIsRepresentable(lib, r);
    assert reader(data) == Some(value);
    MaterialRoundTrip(lib, r);
    FieldsRoundTrip(lib, r, material);
    PortableNormalizes(r);
    PortableEncodes(lib, r);
  }

  /** Whatever is accepted is the encoding of the record it decodes to, and that record is portable. */
  lemma DecodedIsEncoding(reader: bytes -> Option<Value>, lib: KeyLibrary, data: bytes)
    requires lib.Lawful() && DecodeWrapped(reader, lib, data).Ok?
    ensures
      var r := DecodeWrapped(reader, lib, data).value;
      && EncodeWrapped(lib, r) == Ok(data)
      && Sound(lib, r) && WellTyped(r) && Portable(r) == r
  {
    var raw := DecodeFields(lib, reader(data).value.items).value;
    var r := DecodeWrapped(reader, lib, data).value;
    assert r.material == raw.material && r.info == raw.info.(length := r.info.length);
    assert Settled(lib, r) by {
      assert r.material.PrivateKey? ==> lib.Retained(r.info.algorithm, r.material.encoded);
    }
  }

  ghost predicate Wrappable(lib: KeyLibrary, r: ObjectRecord, data: bytes) {
    Settled(lib, r) && WellTyped(r) && EncodeWrapped(lib, r) == Ok(data)
  }

  /** Bytes are accepted if and only if they are the encoding of some wrappable record,
      however many other forms the CBOR reader itself understands. */
  lemma CodecExact(reader: bytes -> Option<Value>, lib: KeyLibrary, data: bytes)
    requires ReadsBack(reader) && lib.Lawful()
    ensures DecodeWrapped(reader, lib, data).Ok? <==> exists r :: Wrappable(lib, r, data)
  {
    if DecodeWrapped(reader, lib, data).Ok? {
      DecodedIsEncoding(reader, lib, data);
      assert Wrappable(lib, DecodeWrapped(reader, lib, data).value, data);
    }
    if r :| Wrappable(lib, r, data) {
      DecodeEncode(reader, lib, r);
    }
  }

  /** Two wrappable records share an encoding only if they agree on everything portable. */
  lemma EncodingInjective(lib: KeyLibrary, r: ObjectRecord, t: ObjectRecord, data: bytes)
    requires lib.Lawful() && Wrappable(lib, r, data) && Wrappable(lib, t, data)
    ensures Portable(r) == Portable(t)
  {
    LenientReaderQualifies();
    DecodeEncode(Cbor.ReadWhole, lib, r);
    DecodeEncode(Cbor.ReadWhole, lib, t);
  }

  /** The law holds of a reader that also takes long arguments and indefinite lengths. */
  lemma LenientReaderQualifies()
    ensures ReadsBack(Cbor.ReadWhole)
  {
    forall v | Cbor.Representable(v)
      ensures Cbor.ReadWhole(Cbor.Write(v)) == Some(v)
    {
      Cbor.ReaderInvertsWriter(v);
    }
  }
}
