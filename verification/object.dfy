/** Algorithm numbers and the lengths the device derives from them. */
module Algorithms {
  import opened Bytes
  import opened Errors
  import opened Capabilities

  const RSA_2048: byte := 9
  const RSA_4096: byte := 11
  const EC_P256: byte := 12
  const EC_K256: byte := 15
  const AES128_CCM_WRAP: byte := 29
  const OPAQUE_DATA: byte := 30
  const OPAQUE_X509_CERTIFICATE: byte := 31
  const TEMPLATE_SSH: byte := 36
  const AES128_YUBICO_OTP: byte := 37
  const AES128_YUBICO_AUTHENTICATION: byte := 38
  const AES192_YUBICO_OTP: byte := 39
  const AES256_YUBICO_OTP: byte := 40
  const AES192_CCM_WRAP: byte := 41
  const AES256_CCM_WRAP: byte := 42
  const ED25519: byte := 46
  const EC_P256_YUBICO_AUTHENTICATION: byte := 49
  const AES128: byte := 50
  const AES192: byte := 51
  const AES256: byte := 52
  const X25519: byte := 56
  const ED448: byte := 58
  const ML_DSA_44: byte := 59
  const LAST_ALGORITHM: byte := 67

  predicate Known(a: byte) {
    1 <= a <= LAST_ALGORITHM
  }

  predicate Supported(f: Firmware, a: byte) {
    && Known(a)
    && (X25519 <= a <= ED448 ==> f.extendedCurves)
    && (ML_DSA_44 <= a ==> f.postQuantum)
  }

  predicate IsRsaKey(a: byte) {
    RSA_2048 <= a <= RSA_4096
  }

  predicate IsMlKem(a: byte) {
    62 <= a <= 64
  }

  predicate IsHybridKem(a: byte) {
    65 <= a <= 67
  }

  predicate IsMlDsa(a: byte) {
    59 <= a <= 61
  }

  predicate IsCcmWrap(a: byte) {
    a == AES128_CCM_WRAP || a == AES192_CCM_WRAP || a == AES256_CCM_WRAP
  }

  predicate IsAes(a: byte) {
    AES128 <= a <= AES256
  }

  predicate IsYubicoOtp(a: byte) {
    a == AES128_YUBICO_OTP || a == AES192_YUBICO_OTP || a == AES256_YUBICO_OTP
  }

  /** Serialized private-key length used by imports. */
  function AsymmetricKeyLength(a: byte): Option<nat> {
    match a
    case 9 => Some(256)
    case 10 => Some(384)
    case 11 => Some(512)
    case 12 => Some(32)
    case 13 => Some(48)
    case 14 => Some(66)
    case 15 => Some(32)
    case 16 => Some(32)
    case 17 => Some(48)
    case 18 => Some(64)
    case 46 => Some(32)
    case 47 => Some(28)
    case 56 => Some(32)
    case 57 => Some(56)
    case 58 => Some(57)
    case _ => if IsMlDsa(a) || IsHybridKem(a) then Some(32) else if IsMlKem(a) then Some(64) else None
  }

  /** Object size a physical device reports; metadata only. */
  function AsymmetricObjectLength(a: byte): Option<nat> {
    match a
    case 9 => Some(896)
    case 10 => Some(1344)
    case 11 => Some(1792)
    case 12 => Some(96)
    case 13 => Some(144)
    case 14 => Some(198)
    case 15 => Some(96)
    case 16 => Some(96)
    case 17 => Some(144)
    case 18 => Some(192)
    case 46 => Some(128)
    case 47 => Some(84)
    case 56 => Some(64)
    case 57 => Some(112)
    case 58 => Some(228)
    case _ => if IsMlDsa(a) || IsHybridKem(a) then Some(32) else if IsMlKem(a) then Some(64) else None
  }

  function HmacObjectLength(a: byte): Option<nat> {
    if a == 19 || a == 20 then Some(128) else if a == 21 || a == 22 then Some(256) else None
  }

  function HmacLength(a: byte): Option<nat> {
    match a
    case 19 => Some(20)
    case 20 => Some(32)
    case 21 => Some(48)
    case 22 => Some(64)
    case _ => None
  }

  function AesKeyLength(a: byte): Option<nat> {
    if a == AES128 || a == AES128_CCM_WRAP || a == AES128_YUBICO_OTP then Some(16)
    else if a == AES192 || a == AES192_CCM_WRAP || a == AES192_YUBICO_OTP then Some(24)
    else if a == AES256 || a == AES256_CCM_WRAP || a == AES256_YUBICO_OTP then Some(32)
    else None
  }

  function AuthenticationKeyLength(a: byte): Option<nat> {
    if a == AES128_YUBICO_AUTHENTICATION then Some(32)
    else if a == EC_P256_YUBICO_AUTHENTICATION then Some(64)
    else None
  }

  predicate FipsDisallowed(a: byte) {
    a in {1, 5, 23, EC_K256, 48}
  }
}

/** Objects, their validation and their stored form. */
module Objects {
  import opened Bytes
  import opened Errors
  import opened Capabilities
  import opened Algorithms

  const LABEL_LENGTH := 40

  datatype ObjectType =
    | OpaqueObject
    | AuthenticationKey
    | AsymmetricKey
    | WrapKey
    | HmacKey
    | Template
    | OtpAeadKey
    | SymmetricKey
    | PublicWrapKey
  {
    function Byte(): (b: byte)
      ensures 1 <= b <= 9 && TypeFromByte(b) == Some(this)
    {
      match this
      case OpaqueObject => 1
      case AuthenticationKey => 2
      case AsymmetricKey => 3
      case WrapKey => 4
      case HmacKey => 5
      case Template => 6
      case OtpAeadKey => 7
      case SymmetricKey => 8
      case PublicWrapKey => 9
    }

    function DeletionCapability(): Capability {
      match this
      case OpaqueObject => DELETE_OPAQUE
      case AuthenticationKey => DELETE_AUTHENTICATION_KEY
      case AsymmetricKey => DELETE_ASYMMETRIC_KEY
      case WrapKey => DELETE_WRAP_KEY
      case HmacKey => DELETE_HMAC_KEY
      case Template => DELETE_TEMPLATE
      case OtpAeadKey => DELETE_OTP_AEAD_KEY
      case SymmetricKey => DELETE_SYMMETRIC_KEY
      case PublicWrapKey => DELETE_PUBLIC_WRAP_KEY
    }
  }

  function TypeFromByte(b: byte): Option<ObjectType> {
    match b
    case 1 => Some(OpaqueObject)
    case 2 => Some(AuthenticationKey)
    case 3 => Some(AsymmetricKey)
    case 4 => Some(WrapKey)
    case 5 => Some(HmacKey)
    case 6 => Some(Template)
    case 7 => Some(OtpAeadKey)
    case 8 => Some(SymmetricKey)
    case 9 => Some(PublicWrapKey)
    case _ => None
  }

  lemma TypeByteExact(b: byte, t: ObjectType)
    ensures TypeFromByte(b) == Some(t) <==> b == t.Byte()
  {
  }

  datatype ObjectKey = ObjectKey(objectType: ObjectType, id: u16)

  datatype ObjectInfo = ObjectInfo(
    capabilities: CapabilitySet,
    id: u16,
    length: u16,
    domains: u16,
    objectType: ObjectType,
    algorithm: byte,
    sequence: byte,
    origin: byte,
    labelBytes: bytes,
    delegated: CapabilitySet)
  {
    function Key(): ObjectKey {
      ObjectKey(objectType, id)
    }

    function Validate(): Result<()> {
      if id == 0 || id == 0xffff then Err(InvalidId)
      else if domains == 0 || |labelBytes| > LABEL_LENGTH then Err(InvalidData)
      else Ok(())
    }

    predicate HoldsPrivateKey() {
      objectType.AsymmetricKey? || (objectType.WrapKey? && IsRsaKey(algorithm))
    }
  }

  datatype AuthenticationMaterial = SymmetricKeys(value: bytes) | HostPublicKey(value: bytes)

  /** Runtime material. A private key keeps the algorithm it was parsed for and its
      retained serialization. */
  datatype ObjectMaterial =
    | Authentication(key: AuthenticationMaterial)
    | PrivateKey(algorithm: byte, encoded: bytes)
    | Secret(value: bytes)
    | OpaqueBytes(value: bytes)
    | PublicModulus(value: bytes)
    | OtpAead(nonceId: bytes, otpKey: bytes)
  {
    function Length(): nat {
      match this
      case Authentication(key) => |key.value|
      case PrivateKey(algorithm, _) => var n := AsymmetricKeyLength(algorithm); if n.Some? then n.value else 0
      case Secret(value) => |value|
      case OpaqueBytes(value) => |value|
      case PublicModulus(value) => |value|
      case OtpAead(_, otpKey) => |otpKey|
    }
  }

  datatype ObjectRecord = ObjectRecord(info: ObjectInfo, material: ObjectMaterial)

  datatype StoredMaterial =
    | StoredAuthentication(key: AuthenticationMaterial)
    | StoredSecret(value: bytes)
    | StoredOpaque(value: bytes)
    | StoredPublic(value: bytes)
    | StoredOtpAead(nonceId: bytes, otpKey: bytes)
  {
    function Length(): nat {
      match this
      case StoredAuthentication(key) => |key.value|
      case StoredSecret(value) => |value|
      case StoredOpaque(value) => |value|
      case StoredPublic(value) => |value|
      case StoredOtpAead(_, otpKey) => |otpKey|
    }
  }

  datatype StoredRecord = StoredRecord(info: ObjectInfo, material: StoredMaterial)

  /**
   The private-key library. Every key it hands out is kept in a form that parses
   back to itself, and PKCS #8 is a round-trip pair on such keys.
   */
  datatype KeyLibrary = KeyLibrary(
    parse: (byte, bytes) -> Option<bytes>,
    generate: (byte, bytes) -> Option<bytes>,
    accept: (byte, bytes) -> Option<bytes>,
    validateImport: (byte, bytes) -> Result<bytes>,
    toPkcs8: (byte, bytes) -> bytes,
    fromPkcs8: (byte, bytes) -> Option<bytes>,
    publicKeyError: (bytes, nat) -> Option<DeviceError>,
    validPoint: bytes -> bool)
  {
    ghost predicate Retained(a: byte, k: bytes) {
      parse(a, k) == Some(k)
    }

    ghost predicate Lawful() {
      && (forall a, x :: parse(a, x).Some? ==> Retained(a, parse(a, x).value))
      && (forall a, x :: generate(a, x).Some? ==> Retained(a, generate(a, x).value))
      && (forall a, x :: accept(a, x).Some? ==> Retained(a, accept(a, x).value))
      && (forall a, x :: validateImport(a, x).Ok? ==> Retained(a, validateImport(a, x).value))
      && (forall a, x :: fromPkcs8(a, x).Some? ==> Retained(a, fromPkcs8(a, x).value))
      && (forall a, k :: Retained(a, k) ==> fromPkcs8(a, toPkcs8(a, k)) == Some(k) && |k| < 0x1_0000)
    }
  }

  // ----- lengths and validation

  function FromOption<T>(o: Option<T>, error: DeviceError): Result<T> {
    if o.Some? then Ok(o.value) else Err(error)
  }

  function ExpectedInfoLength(r: ObjectRecord): Result<nat> {
    var a := r.info.algorithm;
    match r.info.objectType
    case AuthenticationKey => Ok(r.material.Length() + 8)
    case AsymmetricKey => FromOption(AsymmetricObjectLength(a), InvalidData)
    case WrapKey =>
      if IsRsaKey(a) then
        var n :- FromOption(AsymmetricObjectLength(a), InvalidData);
        Ok(n + 8)
      else if IsCcmWrap(a) then Ok(r.material.Length() + 8)
      else Err(InvalidData)
    case HmacKey => FromOption(HmacObjectLength(a), InvalidData)
    case OtpAeadKey => Ok(r.material.Length() + 4)
    case PublicWrapKey => Ok(r.material.Length() + 8)
    case _ => Ok(r.material.Length())
  }

  function NormalizeInfoLength(r: ObjectRecord): Result<ObjectRecord> {
    var n :- ExpectedInfoLength(r);
    if n > 0xffff then Err(WrongLength) else Ok(r.(info := r.info.(length := n)))
  }

  function Validate(r: ObjectRecord): Result<()> {
    var _ :- r.info.Validate();
    if r.info.HoldsPrivateKey() && AsymmetricKeyLength(r.info.algorithm) != Some(r.material.Length()) then
      Err(InvalidData)
    else
      var n :- ExpectedInfoLength(r);
      if r.info.length != n then Err(InvalidData) else Ok(())
  }

  /** Byte material of a private-key object becomes a parsed key. */
  function Promote(lib: KeyLibrary, r: ObjectRecord): Result<ObjectRecord> {
    if r.material.Secret? && r.info.HoldsPrivateKey() then
      var k :- FromOption(lib.parse(r.info.algorithm, r.material.value), InvalidData);
      Ok(r.(material := PrivateKey(r.info.algorithm, k)))
    else Ok(r)
  }

  /** A record whose material has its runtime form. */
  ghost predicate Settled(lib: KeyLibrary, r: ObjectRecord) {
    && (r.material.PrivateKey? ==>
          && r.info.HoldsPrivateKey()
          && r.material.algorithm == r.info.algorithm
          && lib.Retained(r.material.algorithm, r.material.encoded))
    && (r.material.Secret? ==> !r.info.HoldsPrivateKey())
  }

  /** What every stored object satisfies. */
  ghost predicate Sound(lib: KeyLibrary, r: ObjectRecord) {
    Validate(r).Ok? && Settled(lib, r)
  }

  function ToStored(r: ObjectRecord): StoredRecord {
    StoredRecord(
      r.info,
      match r.material
      case Authentication(key) => StoredAuthentication(key)
      case PrivateKey(_, encoded) => StoredSecret(encoded)
      case Secret(value) => StoredSecret(value)
      case OpaqueBytes(value) => StoredOpaque(value)
      case PublicModulus(value) => StoredPublic(value)
      case OtpAead(nonceId, otpKey) => StoredOtpAead(nonceId, otpKey))
  }

  function FromStored(lib: KeyLibrary, s: StoredRecord): Result<ObjectRecord> {
    match s.material
    case StoredAuthentication(key) => Ok(ObjectRecord(s.info, Authentication(key)))
    case StoredSecret(value) =>
      if s.info.HoldsPrivateKey() then
        var k :- FromOption(lib.parse(s.info.algorithm, value), InvalidData);
        Ok(ObjectRecord(s.info, PrivateKey(s.info.algorithm, k)))
      else Ok(ObjectRecord(s.info, Secret(value)))
    case StoredOpaque(value) => Ok(ObjectRecord(s.info, OpaqueBytes(value)))
    case StoredPublic(value) => Ok(ObjectRecord(s.info, PublicModulus(value)))
    case StoredOtpAead(nonceId, otpKey) => Ok(ObjectRecord(s.info, OtpAead(nonceId, otpKey)))
  }

  /** Storing and restoring a settled record gives it back. */
  lemma StoredRoundTrip(lib: KeyLibrary, r: ObjectRecord)
    requires Settled(lib, r)
    ensures FromStored(lib, ToStored(r)) == Ok(r)
  {
  }

  /** Whatever image is restored, its private keys come out parsed. */
  lemma FromStoredSettles(lib: KeyLibrary, s: StoredRecord)
    requires lib.Lawful() && FromStored(lib, s).Ok?
    ensures Settled(lib, FromStored(lib, s).value)
    ensures FromStored(lib, s).value.info == s.info
  {
  }

  lemma PromoteSettles(lib: KeyLibrary, r: ObjectRecord)
    requires lib.Lawful() && Promote(lib, r).Ok?
    requires r.material.PrivateKey? ==> Settled(lib, r)
    ensures Settled(lib, Promote(lib, r).value)
    ensures Promote(lib, r).value.info == r.info
  {
  }

  /** Validation leaves no choice of length. */
  lemma LengthIsDetermined(r: ObjectRecord, length: u16)
    requires Validate(r).Ok? && Validate(r.(info := r.info.(length := length))).Ok?
    ensures length == r.info.length
  {
    assert ExpectedInfoLength(r.(info := r.info.(length := length))) == ExpectedInfoLength(r);
  }

  /** Normalizing makes the length field the one that validation expects. */
  lemma NormalizeThenValidate(r: ObjectRecord)
    requires NormalizeInfoLength(r).Ok? && r.info.Validate().Ok?
    requires r.info.HoldsPrivateKey() ==> AsymmetricKeyLength(r.info.algorithm) == Some(r.material.Length())
    ensures Validate(NormalizeInfoLength(r).value).Ok?
  {
  }

  /** A valid record differing only in its length normalizes back to itself. */
  lemma NormalizeRestores(r: ObjectRecord, length: u16)
    requires Validate(r).Ok?
    ensures NormalizeInfoLength(r.(info := r.info.(length := length))) == Ok(r)
  {
    var changed := r.(info := r.info.(length := length));
    assert ExpectedInfoLength(changed) == ExpectedInfoLength(r);
    assert changed.(info := changed.info.(length := r.info.length)) == r;
  }
}
