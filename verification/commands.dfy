/** Parameters of the device: everything it calls but does not define. */
module ForeignCode {
  import opened Bytes
  import opened Errors
  import opened Objects
  import opened Protocol
  import opened SecureChannel
  import opened Store
  import Audit
  import Cbor
  import Envelope

  /** Keys and receipt of an asymmetric session. */
  datatype Agreement = Agreement(sEnc: bytes, sMac: bytes, sRmac: bytes, receipt: bytes, ephemeral: bytes)

  datatype Foreign = Foreign(
    cipher: Cipher,
    keys: KeyLibrary,
    hash: Audit.Hash,
    reader: bytes -> Option<Cbor.Value>,
    factoryKeys: StaticKeys,
    random: (bytes, nat) -> bytes,
    useKey: (CommandCode, ObjectRecord, bytes, bytes) -> Result<bytes>,
    rewrap: (ObjectRecord, ObjectRecord, bytes, bytes) -> Result<bytes>,
    publicKey: ObjectRecord -> Result<bytes>,
    devicePublicKey: bytes -> bytes,
    export_: (CommandCode, ObjectRecord, ObjectRecord, bool, bytes, bytes) -> Result<bytes>,
    unwrap: (CommandCode, ObjectRecord, bool, bytes) -> Result<bytes>,
    attest: (seq<Option<ObjectRecord>>, bytes, bytes, bytes) -> Result<bytes>,
    prehash: byte -> Option<nat>,
    agreeStored: (ObjectRecord, bytes) -> Option<bytes>,
    agreeVolatile: (bytes, bytes) -> Option<bytes>,
    newP256: bytes -> Option<bytes>,
    p256Public: bytes -> bytes,
    kdfRefusal: bytes -> Option<DeviceError>,
    counterKdf: (bytes, bytes, nat) -> Option<bytes>,
    scp11: (bytes, bytes, bytes, bytes) -> Option<Agreement>)
  {
    ghost predicate Lawful() {
      && cipher.Lawful()
      && keys.Lawful()
      && (forall x :: |hash(x)| == 32)
      && (forall s, n :: |random(s, n)| == n)
      && (forall k :: |p256Public(k)| == P256_PUBLIC_KEY_LENGTH)
      && (forall k, p, q, s :: scp11(k, p, q, s).Some? ==> |scp11(k, p, q, s).value.receipt| == Envelope.BLOCK_SIZE)
    }
  }

  /** What the outside world supplies to one frame: time, draws and fresh secrets. */
  datatype Env = Env(
    now: nat,
    stamp: nat,
    ids: seq<u16>,
    handles: seq<u64>,
    challenge: bytes,
    seed: bytes)
}

/** Authorization and handling of the commands inside a session. */
module Commands {
  import opened Bytes
  import opened Errors
  import opened Capabilities
  import opened Algorithms
  import opened Objects
  import opened Protocol
  import Cmd
  import opened Options
  import opened Requests
  import opened Authorization
  import opened Store
  import opened ForeignCode
  import Audit
  import Cbor
  import Counter
  import Envelope
  import Frames
  import Volatile
  import WrappedObjects

  datatype Done = Done(data: bytes, effect: Effect)

  function Answer(data: bytes): Result<Done> {
    Ok(Done(data, NoEffect))
  }

  function AnswerWith(r: Result<bytes>): Result<Done> {
    if r.Ok? then Answer(r.value) else Err(r.error)
  }

  // ----- the shape of each command

  datatype Recipe = Recipe(
    objectType: ObjectType, capability: Capability, generate: bool, imported: bool, shape: Shape)

  datatype Group =
    | Plain
    | Close
    | StorageInfo
    | Random
    | Blink
    | ListAll
    | ReadInfo
    | ReadPublicKey
    | ReadOpaque
    | ReadTemplate
    | ReadLog
    | TrimEntries
    | WriteOption
    | ReadOption
    | Create(recipe: Recipe)
    | WriteOpaque
    | ChangeKey
    | UseKey(use: KeyUse)
    | Rewrap
    | Export(wrapType: ObjectType, rsa: bool)
    | Import
    | ImportKey
    | Attest
    | UseVolatile
    | Delete
    | ResetAll
    | Unavailable

  function GroupOf(c: CommandCode): Group {
    match c
    case 0x01 /* Echo */ => Plain
    case 0x06 /* GetDeviceInfo */ => Plain
    case 0x0a /* GetDevicePublicKey */ => Plain
    case 0x40 /* CloseSession */ => Close
    case 0x41 /* GetStorageInfo */ => StorageInfo
    case 0x51 /* GetPseudoRandom */ => Random
    case 0x6b /* BlinkDevice */ => Blink
    case 0x48 /* ListObjects */ => ListAll
    case 0x4e /* GetObjectInfo */ => ReadInfo
    case 0x54 /* GetPublicKey */ => ReadPublicKey
    case 0x43 /* GetOpaque */ => ReadOpaque
    case 0x5f /* GetTemplate */ => ReadTemplate
    case 0x4d /* GetLogEntries */ => ReadLog
    case 0x67 /* SetLogIndex */ => TrimEntries
    case 0x4f /* SetOption */ => WriteOption
    case 0x50 /* GetOption */ => ReadOption
    case 0x44 /* PutAuthenticationKey */ => Create(Recipe(AuthenticationKey, PUT_AUTHENTICATION_KEY, false, false, DelegatedShape))
    case 0x45 /* PutAsymmetricKey */ => Create(Recipe(AsymmetricKey, PUT_ASYMMETRIC_KEY, false, true, PlainShape))
    case 0x46 /* GenerateAsymmetricKey */ => Create(Recipe(AsymmetricKey, GENERATE_ASYMMETRIC_KEY, true, false, PlainShape))
    case 0x52 /* PutHmacKey */ => Create(Recipe(HmacKey, PUT_MAC_KEY, false, false, PlainShape))
    case 0x5a /* GenerateHmacKey */ => Create(Recipe(HmacKey, GENERATE_HMAC_KEY, true, false, PlainShape))
    case 0x6d /* PutSymmetricKey */ => Create(Recipe(SymmetricKey, PUT_SYMMETRIC_KEY, false, false, PlainShape))
    case 0x6e /* GenerateSymmetricKey */ => Create(Recipe(SymmetricKey, GENERATE_SYMMETRIC_KEY, true, false, PlainShape))
    case 0x4c /* PutWrapKey */ => Create(Recipe(WrapKey, PUT_WRAP_KEY, false, true, DelegatedShape))
    case 0x5b /* GenerateWrapKey */ => Create(Recipe(WrapKey, GENERATE_WRAP_KEY, true, false, DelegatedShape))
    case 0x73 /* PutPublicWrapKey */ => Create(Recipe(PublicWrapKey, PUT_PUBLIC_WRAP_KEY, false, false, DelegatedShape))
    case 0x65 /* PutOtpAeadKey */ => Create(Recipe(OtpAeadKey, PUT_OTP_AEAD_KEY, false, false, OtpShape))
    case 0x66 /* GenerateOtpAeadKey */ => Create(Recipe(OtpAeadKey, GENERATE_OTP_AEAD_KEY, true, false, OtpShape))
    case 0x5e /* PutTemplate */ => Create(Recipe(Template, PUT_TEMPLATE, false, false, PlainShape))
    case 0x42 /* PutOpaque */ => WriteOpaque
    case 0x6c /* ChangeAuthenticationKey */ => ChangeKey
    case 0x63 /* RewrapOtpAead */ => Rewrap
    case 0x4a /* ExportWrapped */ => Export(WrapKey, false)
    case 0x74 /* GetRsaWrappedKey */ => Export(PublicWrapKey, true)
    case 0x76 /* ExportRsaWrapped */ => Export(PublicWrapKey, true)
    case 0x4b /* ImportWrapped */ => Import
    case 0x77 /* ImportRsaWrapped */ => Import
    case 0x75 /* PutRsaWrappedKey */ => ImportKey
    case 0x64 /* SignAttestationCertificate */ => Attest
    case 0x0b /* SessionObject */ => UseVolatile
    case 0x58 /* DeleteObject */ => Delete
    case 0x08 /* ResetDevice */ => ResetAll
    case _ => var use := KeyUseOf(c); if use.Some? then UseKey(use.value) else Unavailable
  }

  // ----- authorization before a handler runs

  function Find(objects: ObjectMap, k: ObjectKey): Result<ObjectRecord> {
    if k in objects then Ok(objects[k]) else Err(ObjectNotFound)
  }

  function RequireObjectVisible(objects: ObjectMap, auth: SessionAuthorization, k: ObjectKey): Result<()> {
    var r :- Find(objects, k);
    auth.RequireVisible(r.info)
  }

  function AuthorizeObject(objects: ObjectMap, auth: SessionAuthorization, k: ObjectKey, c: Capability): Result<()> {
    var r :- Find(objects, k);
    auth.AuthorizeUse(r.info, c, c)
  }

  datatype ChangeRequest = ChangeRequest(id: u16, algorithm: byte, material: bytes)

  function DecodeChange(d: bytes): Result<ChangeRequest> {
    if |d| < 3 then Err(WrongLength) else Ok(ChangeRequest(DecodeU16(d[..2]), d[2], d[3..]))
  }

  /** Both imports name the wrap key first. */
  function DecodeWrapId(c: CommandCode, d: bytes): Result<u16> {
    if |d| < (if c == Cmd.ImportWrapped then 16 else 4) then Err(WrongLength) else Ok(DecodeU16(d[..2]))
  }

  datatype KeyImport = KeyImport(wrapId: u16, objectType: ObjectType, header: Header)

  function DecodeKeyImport(d: bytes): Result<KeyImport> {
    if |d| < 3 then Err(WrongLength)
    else
      var t :- FromOption(TypeFromByte(d[2]), InvalidData);
      if |d| < 58 then Err(WrongLength)
      else Ok(KeyImport(DecodeU16(d[..2]), t, HeaderOf(d[3..56])))
  }

  function AuthorizeAttest(objects: ObjectMap, auth: SessionAuthorization, d: bytes): Result<()> {
    if |d| != 4 then Err(WrongLength)
    else
      var target, attesting := DecodeU16(d[..2]), DecodeU16(d[2..]);
      var _ :- if target == 0 then Ok(()) else RequireObjectVisible(objects, auth, ObjectKey(AsymmetricKey, target));
      if attesting == 0 then Ok(())
      else
        var _ :- AuthorizeObject(objects, auth, ObjectKey(AsymmetricKey, attesting), SIGN_ATTESTATION_CERTIFICATE);
        if ObjectKey(OpaqueObject, attesting) in objects then
          RequireObjectVisible(objects, auth, ObjectKey(OpaqueObject, attesting))
        else Ok(())
  }

  function AuthorizeGroup(f: Foreign, objects: ObjectMap, auth: SessionAuthorization, c: CommandCode, d: bytes): Result<()> {
    match GroupOf(c)
    case WriteOpaque =>
      var q :- DecodeObject(PlainShape, d);
      var k := ObjectKey(OpaqueObject, q.header.requestedId);
      if q.header.requestedId != 0 && k in objects then AuthorizeObject(objects, auth, k, PUT_OPAQUE) else Ok(())
    case ReadOpaque =>
      var id :- DecodeId(d);
      RequireObjectVisible(objects, auth, ObjectKey(OpaqueObject, id))
    case ReadTemplate =>
      var id :- DecodeId(d);
      AuthorizeObject(objects, auth, ObjectKey(Template, id), GET_TEMPLATE)
    case ChangeKey =>
      var q :- DecodeChange(d);
      if q.id != auth.keyId then Err(InvalidId)
      else AuthorizeObject(objects, auth, ObjectKey(AuthenticationKey, q.id), CHANGE_AUTHENTICATION_KEY)
    case UseKey(use) =>
      var id :- DecodeUse(f.prehash, c, use, d);
      AuthorizeObject(objects, auth, ObjectKey(use.objectType, id), use.capability)
    case Rewrap =>
      if |d| != 40 then Err(WrongLength)
      else
        var _ :- AuthorizeObject(objects, auth, ObjectKey(OtpAeadKey, DecodeU16(d[..2])), REWRAP_FROM_OTP_AEAD_KEY);
        AuthorizeObject(objects, auth, ObjectKey(OtpAeadKey, DecodeU16(d[2..4])), REWRAP_TO_OTP_AEAD_KEY)
    case Export(wrapType, rsa) =>
      var q :- DecodeExport(d, rsa);
      var wrap :- Find(objects, ObjectKey(wrapType, q.wrapId));
      var target :- Find(objects, q.target);
      auth.AuthorizeWrappedExport(target.info, wrap.info)
    case Import =>
      var id :- DecodeWrapId(c, d);
      AuthorizeObject(objects, auth, ObjectKey(WrapKey, id), IMPORT_WRAPPED)
    case ImportKey =>
      var q :- DecodeKeyImport(d);
      AuthorizeObject(objects, auth, ObjectKey(WrapKey, q.wrapId), IMPORT_WRAPPED)
    case Attest => AuthorizeAttest(objects, auth, d)
    case ReadInfo =>
      var k :- DecodeObjectKey(d);
      RequireObjectVisible(objects, auth, k)
    case ReadPublicKey =>
      var k :- DecodePublicKey(d);
      RequireObjectVisible(objects, auth, k)
    case Delete =>
      var k :- DecodeObjectKey(d);
      var r :- Find(objects, k);
      auth.AuthorizeDelete(r.info)
    case _ => Ok(())
  }

  function RequireFor(auth: SessionAuthorization, c: CommandCode): Result<()> {
    var required := RequiredSessionCapability(c);
    if required.Some? then auth.RequireCapability(required.value) else Ok(())
  }

  function Authorize(f: Foreign, objects: ObjectMap, auth: SessionAuthorization, c: CommandCode, d: bytes): Result<()> {
    var _ :- RequireFor(auth, c);
    AuthorizeGroup(f, objects, auth, c, d)
  }

  // ----- reading handlers

  /** A visible object whose algorithm is enabled. */
  function Usable(config: DeviceConfig, s: Durable, auth: SessionAuthorization, k: ObjectKey): Result<ObjectRecord> {
    var r :- Find(s.objects, k);
    var _ :- auth.RequireVisible(r.info);
    if AlgorithmEnabled(config, s.options, r.info.algorithm) then Ok(r) else Err(InvalidData)
  }

  function EncodeInfo(info: ObjectInfo): bytes {
    info.capabilities + EncodeU16(info.id) + EncodeU16(info.length) + EncodeU16(info.domains)
    + [info.objectType.Byte(), info.algorithm, info.sequence, info.origin]
    + info.labelBytes + (if |info.labelBytes| <= LABEL_LENGTH then Zeros(LABEL_LENGTH - |info.labelBytes|) else [])
    + info.delegated
  }

  function HandleInfo(config: DeviceConfig, s: Durable, auth: SessionAuthorization, d: bytes): Result<bytes> {
    var k :- DecodeObjectKey(d);
    var r :- Find(s.objects, k);
    var _ :- auth.RequireVisible(r.info);
    Ok(EncodeInfo(r.info.(capabilities := RetainFirmwareSupported(config.firmware, r.info.capabilities),
                              delegated := RetainFirmwareSupported(config.firmware, r.info.delegated))))
  }

  function ListEntry(info: ObjectInfo): bytes {
    EncodeU16(info.id) + [info.objectType.Byte(), info.sequence]
  }

  predicate Listed(auth: SessionAuthorization, filters: Filters, r: ObjectRecord) {
    auth.CanSee(r.info) && Matches(filters, r.info)
  }

  function ListBytes(auth: SessionAuthorization, filters: Filters, records: seq<ObjectRecord>): bytes {
    if records == [] then []
    else
      var last := records[|records| - 1];
      ListBytes(auth, filters, records[..|records| - 1]) + if Listed(auth, filters, last) then ListEntry(last.info) else []
  }

  method ListLoop(auth: SessionAuthorization, filters: Filters, records: seq<ObjectRecord>) returns (output: bytes)
    ensures output == ListBytes(auth, filters, records)
  {
    output := [];
    for i := 0 to |records|
      invariant output == ListBytes(auth, filters, records[..i])
    {
      assert records[..i + 1][..i] == records[..i];
      if auth.CanSee(records[i].info) && Matches(filters, records[i].info) {
        output := output + ListEntry(records[i].info);
      }
    }
    assert records[..|records|] == records;
  }

  function HandleList(s: Durable, auth: SessionAuthorization, d: bytes): Result<bytes> {
    var filters := DecodeFilters(NO_FILTERS, d);
    if filters.Err? then Err(InvalidData)
    else Ok(ListBytes(auth, filters.value, InOrder(s.objects)))
  }

  function LogBytes(entries: seq<Audit.Entry>): bytes {
    if entries == [] then []
    else LogBytes(entries[..|entries| - 1]) + Audit.EncodeEntry(entries[|entries| - 1])
  }

  function HandleReadLog(s: Durable, d: bytes): Result<bytes> {
    if d != [] then Err(WrongLength)
    else
      var n := |s.log.entries|;
      Ok(EncodeU16(s.log.unloggedBoot) + EncodeU16(s.log.unloggedAuthentication)
             + [if n < 0x100 then n else 0xff] + LogBytes(s.log.entries))
  }

  function CommandOptionBytes(config: DeviceConfig, o: DeviceOptions, n: nat): bytes
    requires n <= 0x100
  {
    if n == 0 then []
    else
      var c := FromByte(n - 1);
      CommandOptionBytes(config, o, n - 1)
      + if c.Some? && SupportedCommand(config.firmware, c.value) then [n - 1, Lookup(o.commandAudit, n - 1, OFF)] else []
  }

  function AlgorithmOptionBytes(config: DeviceConfig, o: DeviceOptions, algorithms: seq<byte>): bytes {
    if algorithms == [] then []
    else
      (if Supported(config.firmware, algorithms[0]) then [algorithms[0], Lookup(o.algorithmToggle, algorithms[0], ON)] else [])
      + AlgorithmOptionBytes(config, o, algorithms[1..])
  }

  function HandleReadOption(config: DeviceConfig, s: Durable, d: bytes): Result<bytes> {
    if |d| != 1 then Err(WrongLength)
    else if d[0] == FORCE_AUDIT then Ok([s.options.forceAudit])
    else if d[0] == COMMAND_AUDIT then Ok(CommandOptionBytes(config, s.options, 0x100))
    else if d[0] == ALGORITHM_TOGGLE then Ok(AlgorithmOptionBytes(config, s.options, config.algorithms))
    else if d[0] == FIPS_MODE then Ok([s.options.fipsMode])
    else Err(InvalidData)
  }

  function HandleOpaqueRead(s: Durable, t: ObjectType, d: bytes): Result<bytes> {
    var id :- DecodeId(d);
    var r :- Find(s.objects, ObjectKey(t, id));
    if r.material.OpaqueBytes? then Ok(r.material.value) else Err(InvalidData)
  }

  function HandlePublicKey(f: Foreign, s: Durable, auth: SessionAuthorization, d: bytes): Result<bytes> {
    var k :- DecodePublicKey(d);
    var t := k.objectType;
    if !(t.AsymmetricKey? || t.AuthenticationKey? || t.WrapKey? || t.PublicWrapKey?) then Err(InvalidData)
    else
      var r :- Find(s.objects, k);
      var _ :- auth.RequireVisible(r.info);
      f.publicKey(r)
  }

  function HandleUse(f: Foreign, config: DeviceConfig, s: Durable, auth: SessionAuthorization, c: CommandCode,
                     use: KeyUse, d: bytes, env: Env): Result<bytes>
    requires KeyUseOf(c) == Some(use)
  {
    var id :- DecodeUse(f.prehash, c, use, d);
    var refusal := EarlyRefusal(Envelope.SecureResponseDataFits, c, d);
    if refusal.Some? then Err(refusal.value)
    else
      var r :- Usable(config, s, auth, ObjectKey(use.objectType, id));
      f.useKey(c, r, d, env.seed)
  }

  function HandleRewrap(f: Foreign, config: DeviceConfig, s: Durable, auth: SessionAuthorization, d: bytes, env: Env)
    : Result<bytes>
  {
    if |d| != 40 then Err(WrongLength)
    else
      var from :- Usable(config, s, auth, ObjectKey(OtpAeadKey, DecodeU16(d[..2])));
      var to :- Usable(config, s, auth, ObjectKey(OtpAeadKey, DecodeU16(d[2..4])));
      f.rewrap(from, to, d[4..], env.seed)
  }

  function HandleExport(f: Foreign, config: DeviceConfig, s: Durable, auth: SessionAuthorization, c: CommandCode,
                        wrapType: ObjectType, rsa: bool, d: bytes, env: Env): Result<bytes>
  {
    var q :- DecodeExport(d, rsa);
    if c == Cmd.ExportWrapped && |d| == 6 && d[5] > 1 then Err(WrongLength)
    else
      var wrap :- Usable(config, s, auth, ObjectKey(wrapType, q.wrapId));
      if c == Cmd.ExportWrapped && !IsCcmWrap(wrap.info.algorithm) then Err(InvalidData)
      else
        var target :- Find(s.objects, q.target);
        f.export_(c, wrap, target, s.options.fipsMode != OFF, d, env.seed)
  }

  function Maybe(objects: ObjectMap, t: ObjectType, id: u16): Option<ObjectRecord> {
    if ObjectKey(t, id) in objects then Some(objects[ObjectKey(t, id)]) else None
  }

  function HandleAttest(f: Foreign, s: Durable, d: bytes, env: Env): Result<bytes> {
    if |d| != 4 then Err(WrongLength)
    else
      var target, attesting := DecodeU16(d[..2]), DecodeU16(d[2..]);
      (f.attest([Maybe(s.objects, AsymmetricKey, target), Maybe(s.objects, AsymmetricKey, attesting),
                           Maybe(s.objects, OpaqueObject, attesting)], s.deviceKey, d, env.seed))
  }

  // ----- creating handlers

  /** What a creation command will store: the length is fixed before authorization, the
      material may still fail after it. */
  datatype Plan = Plan(length: u16, material: Result<ObjectMaterial>)

  function NewPrivateKey(f: Foreign, a: byte, generate: bool, supplied: bytes, seed: bytes): Result<ObjectMaterial> {
    var k :- FromOption(if generate then f.keys.generate(a, seed) else f.keys.accept(a, supplied),
                        if generate then StorageFailed else InvalidData);
    Ok(PrivateKey(a, k))
  }

  function Bytes_(f: Foreign, generate: bool, supplied: bytes, seed: bytes, n: nat): bytes {
    if generate then f.random(seed, n) else supplied
  }

  function PlanFor(f: Foreign, enabled: bool, recipe: Recipe, q: ObjectRequest, seed: bytes): Result<Plan> {
    var a := q.header.algorithm;
    var given := q.material;
    if recipe.generate && given != [] then Err(WrongLength)
    else
      match recipe.objectType
      case AuthenticationKey =>
        var n :- if enabled then FromOption(AuthenticationKeyLength(a), InvalidData) else Err(InvalidData);
        if |given| != n then Err(WrongLength)
        else
          var parsed := WrappedObjects.ParseAuthentication(f.keys, a, given);
          Ok(Plan(n + 8, if parsed.Ok? then Ok(Authentication(parsed.value)) else Err(parsed.error)))
      case AsymmetricKey =>
        var n :- if enabled then FromOption(AsymmetricObjectLength(a), InvalidData) else Err(InvalidData);
        Ok(Plan(n, NewPrivateKey(f, a, recipe.generate, given, seed)))
      case HmacKey =>
        var n :- if enabled then FromOption(HmacLength(a), InvalidData) else Err(InvalidData);
        if !recipe.generate && !(1 <= |given| <= 128) then Err(WrongLength)
        else
          var m :- FromOption(HmacObjectLength(a), InvalidData);
          Ok(Plan(m, Ok(Secret(Bytes_(f, recipe.generate, given, seed, n)))))
      case SymmetricKey =>
        var n :- if enabled && IsAes(a) then FromOption(AesKeyLength(a), InvalidData) else Err(InvalidData);
        if !recipe.generate && |given| != n then Err(WrongLength)
        else Ok(Plan(n, Ok(Secret(Bytes_(f, recipe.generate, given, seed, n)))))
      case WrapKey =>
        if !enabled then Err(InvalidData)
        else if IsRsaKey(a) then
          var n :- FromOption(AsymmetricObjectLength(a), InvalidData);
          Ok(Plan(n + 8, NewPrivateKey(f, a, recipe.generate, given, seed)))
        else if IsCcmWrap(a) then
          var n :- FromOption(AesKeyLength(a), InvalidData);
          Ok(Plan(n + 8, if !recipe.generate && |given| != n then Err(WrongLength)
                         else Ok(Secret(Bytes_(f, recipe.generate, given, seed, n)))))
        else Err(InvalidData)
      case PublicWrapKey =>
        var n :- if enabled && IsRsaKey(a) then FromOption(AsymmetricKeyLength(a), InvalidData) else Err(InvalidData);
        if |given| != n then Err(WrongLength) else Ok(Plan(n + 8, Ok(PublicModulus(given))))
      case OtpAeadKey =>
        var n :- if enabled && IsYubicoOtp(a) then FromOption(AesKeyLength(a), InvalidData) else Err(InvalidData);
        if !recipe.generate && |given| != n then Err(WrongLength)
        else Ok(Plan(n + 4, Ok(OtpAead(q.nonceId, Bytes_(f, recipe.generate, given, seed, n)))))
      case Template =>
        if given == [] || |given| > 0xffff then Err(WrongLength)
        else if a != TEMPLATE_SSH || !enabled then Err(InvalidData)
        else Ok(Plan(|given|, Ok(OpaqueBytes(given))))
      case OpaqueObject => Err(InvalidCommand)
  }

  function Finish(f: Foreign, imported: bool, r: ObjectRecord): Result<ObjectRecord> {
    var _ :- Validate(r);
    if imported then CheckImport(f.keys, r) else CheckWrite(f.keys, r)
  }

  function HandleCreate(f: Foreign, config: DeviceConfig, s: Durable, auth: SessionAuthorization,
                        recipe: Recipe, d: bytes, env: Env): Result<Done>
  {
    var q :- DecodeObject(recipe.shape, d);
    var h := q.header;
    var plan :- PlanFor(f, AlgorithmEnabled(config, s.options, h.algorithm), recipe, q, env.seed);
    var id :- ResolveId(s.objects, recipe.objectType, h.requestedId, env.ids);
    var info := ObjectInfo(h.capabilities, id, plan.length, h.domains, recipe.objectType, h.algorithm, 0,
                           if recipe.generate then 1 else 2, TrimLabel(h.labelBytes), q.delegated);
    var _ :- auth.AuthorizeCreate(info, recipe.capability);
    var material :- plan.material;
    var r :- Finish(f, recipe.imported, ObjectRecord(info, material));
    Ok(Done(EncodeU16(id), WriteObject(r)))
  }

  /** Putting an opaque object may replace the bytes of an existing one with the same metadata. */
  function HandleWriteOpaque(f: Foreign, config: DeviceConfig, s: Durable, auth: SessionAuthorization, d: bytes, env: Env)
    : Result<Done>
  {
    var q :- DecodeObject(PlainShape, d);
    var h := q.header;
    if !AlgorithmEnabled(config, s.options, h.algorithm) then Err(InvalidData)
    else if h.algorithm != OPAQUE_DATA && q.material == [] then Err(InvalidData)
    else
      var k := ObjectKey(OpaqueObject, h.requestedId);
      if h.requestedId != 0 && k in s.objects then
        var old_ := s.objects[k];
        if old_.info.capabilities != h.capabilities || old_.info.domains != h.domains
           || old_.info.algorithm != h.algorithm || old_.info.labelBytes != TrimLabel(h.labelBytes)
        then Err(InvalidData)
        else if |q.material| > 0xffff then Err(WrongLength)
        else
          var r :- CheckWrite(f.keys, ObjectRecord(old_.info.(length := |q.material|), OpaqueBytes(q.material)));
          Ok(Done(EncodeU16(h.requestedId), WriteObject(r)))
      else
        var id :- ResolveId(s.objects, OpaqueObject, h.requestedId, env.ids);
        if |q.material| > 0xffff then Err(WrongLength)
        else
          var info := ObjectInfo(h.capabilities, id, |q.material|, h.domains, OpaqueObject, h.algorithm, 0, 2,
                                 TrimLabel(h.labelBytes), NO_CAPABILITIES);
          var _ :- auth.AuthorizeCreate(info, PUT_OPAQUE);
          var r :- Finish(f, false, ObjectRecord(info, OpaqueBytes(q.material)));
          Ok(Done(EncodeU16(id), WriteObject(r)))
  }

  function HandleChangeKey(f: Foreign, config: DeviceConfig, s: Durable, d: bytes): Result<Done> {
    var q :- DecodeChange(d);
    if !AlgorithmEnabled(config, s.options, q.algorithm) then Err(InvalidData)
    else
      var n :- FromOption(AuthenticationKeyLength(q.algorithm), InvalidData);
      if |q.material| != n then Err(WrongLength)
      else
        var key :- WrappedObjects.ParseAuthentication(f.keys, q.algorithm, q.material);
        var old_ :- Find(s.objects, ObjectKey(AuthenticationKey, q.id));
        var r :- CheckWrite(f.keys, ObjectRecord(old_.info.(algorithm := q.algorithm, length := n + 8), Authentication(key)));
        Ok(Done(EncodeU16(q.id), WriteObject(r)))
  }

  function ImportResponse(info: ObjectInfo): bytes {
    [info.objectType.Byte()] + EncodeU16(info.id)
  }

  function HandleImport(f: Foreign, config: DeviceConfig, s: Durable, auth: SessionAuthorization, c: CommandCode,
                        d: bytes, env: Env): Result<Done>
  {
    var wrapId :- DecodeWrapId(c, d);
    if c == Cmd.ImportWrapped && (d[2] != 1 || |d| < 32) then Err(WrongLength)
    else
      var wrap :- Usable(config, s, auth, ObjectKey(WrapKey, wrapId));
      if (if c == Cmd.ImportWrapped then !IsCcmWrap(wrap.info.algorithm) else !IsRsaKey(wrap.info.algorithm)) then Err(InvalidData)
      else
        var plaintext :- f.unwrap(c, wrap, false, d);
        var unwrapped :- WrappedObjects.DecodeWrapped(f.reader, f.keys, plaintext);
        var _ :- auth.AuthorizeWrappedCreation(unwrapped.info, wrap.info);
        var id :- ResolveId(s.objects, unwrapped.info.objectType, unwrapped.info.id, env.ids);
        var info := unwrapped.info.(id := id, origin := SetBit(unwrapped.info.origin, 0x10));
        var r :- Finish(f, true, unwrapped.(info := info));
        Ok(Done(ImportResponse(info), WriteObject(r)))
  }

  function KeyImportMaterial(f: Foreign, t: ObjectType, a: byte, plaintext: bytes): Result<Plan> {
    if t.AsymmetricKey? then
      if !WrappedObjects.HasPkcs8(a) then Err(InvalidData)
      else
        var k :- FromOption(f.keys.fromPkcs8(a, plaintext), InvalidData);
        var n :- FromOption(AsymmetricObjectLength(a), InvalidData);
        Ok(Plan(n, Ok(PrivateKey(a, k))))
    else if t.SymmetricKey? && IsAes(a) then
      var n :- FromOption(AesKeyLength(a), InvalidData);
      if |plaintext| != n then Err(WrongLength) else Ok(Plan(n, Ok(Secret(plaintext))))
    else Err(InvalidData)
  }

  function HandleImportKey(f: Foreign, config: DeviceConfig, s: Durable, auth: SessionAuthorization, d: bytes, env: Env)
    : Result<Done>
  {
    var q :- DecodeKeyImport(d);
    var h := q.header;
    if !(q.objectType.AsymmetricKey? || q.objectType.SymmetricKey?) || !AlgorithmEnabled(config, s.options, h.algorithm)
    then Err(InvalidData)
    else
      var wrap :- Usable(config, s, auth, ObjectKey(WrapKey, q.wrapId));
      if !IsRsaKey(wrap.info.algorithm) then Err(InvalidData)
      else
        var plaintext :- f.unwrap(Cmd.PutRsaWrappedKey, wrap, s.options.fipsMode != OFF, d);
        var plan :- KeyImportMaterial(f, q.objectType, h.algorithm, plaintext);
        var id :- ResolveId(s.objects, q.objectType, h.requestedId, env.ids);
        var info := ObjectInfo(h.capabilities, id, plan.length, h.domains, q.objectType, h.algorithm, 0, 0x12,
                               TrimLabel(h.labelBytes), NO_CAPABILITIES);
        var _ :- auth.AuthorizeWrappedCreation(info, wrap.info);
        var material :- plan.material;
        var r :- Finish(f, true, ObjectRecord(info, material));
        Ok(Done(ImportResponse(info), WriteObject(r)))
  }

  // ----- volatile objects

  function HandleOf(s: bytes): u64
    requires |s| == 8
  {
    Counter.NumberBound(s);
    Cbor.EightBytes();
    Counter.Number(s)
  }

  datatype ResultHeader = ResultHeader(flags: byte, kind: Volatile.Kind, length: u16)

  /** The four bytes that describe a derived object. */
  function DecodeResultHeader(p: bytes): Result<ResultHeader> {
    if |p| < 2 then Err(WrongLength)
    else
      var kind :- FromOption(Volatile.KindFromByte(p[1]), InvalidData);
      if |p| < 4 then Err(WrongLength) else Ok(ResultHeader(p[0], kind, DecodeU16(p[2..4])))
  }

  function CheckResultHeader(h: ResultHeader): Result<()> {
    if !Volatile.ValidFlags(h.flags) || h.kind.P256Private? then Err(InvalidData)
    else if h.length == 0 || h.length > Volatile.MAX_VALUE_LENGTH then Err(WrongLength)
    else Ok(())
  }

  datatype Source = FromVolatile(handle: u64) | FromAsymmetric(id: u16) | FromSymmetric(id: u16)

  datatype SourcePart = SourcePart(source: Source, rest: bytes)

  function DecodeSource(p: bytes): Result<SourcePart> {
    if p == [] then Err(WrongLength)
    else if p[0] == 0 then
      if |p| < 9 then Err(WrongLength) else Ok(SourcePart(FromVolatile(HandleOf(p[1..9])), p[9..]))
    else if p[0] == 1 || p[0] == 2 then
      if |p| < 3 then Err(WrongLength)
      else
        var id := DecodeU16(p[1..3]);
        Ok(SourcePart(if p[0] == 1 then FromAsymmetric(id) else FromSymmetric(id), p[3..]))
    else Err(InvalidData)
  }

  function VolatileAt(v: Volatile.Store, h: u64): Result<Volatile.SessionObject> {
    if h in v then Ok(v[h]) else Err(ObjectNotFound)
  }

  function DerivationSecret(v: Volatile.Store, h: u64): Result<bytes> {
    var o :- VolatileAt(v, h);
    if !Volatile.Derivable(o.flags) then Err(InsufficientPermissions)
    else if o.kind.P256Private? then Err(InvalidData)
    else Ok(o.value)
  }

  function Add(v: Volatile.Store, o: Volatile.SessionObject, public: bytes, env: Env): Result<Done> {
    var h :- FromOption(Volatile.ChooseHandle(v, env.handles), StorageFailed);
    Ok(Done(Cbor.BigEndian(h, 8) + public, AddVolatile(h, o)))
  }

  /** Store the first `length` bytes of a derived value. */
  function AddDerived(v: Volatile.Store, h: ResultHeader, value: bytes, env: Env): Result<Done> {
    var o :- FromOption(Volatile.NewSecret(h.kind, h.flags, value), InvalidData);
    Add(v, o, [], env)
  }

  function Take(value: bytes, n: nat): Result<bytes> {
    if n > |value| then Err(WrongLength) else Ok(value[..n])
  }

  function VolatileRead(v: Volatile.Store, p: bytes): Result<bytes> {
    if |p| != 8 then Err(WrongLength)
    else
      var o :- VolatileAt(v, HandleOf(p));
      if !Volatile.Readable(o.flags) then Err(InsufficientPermissions)
      else if o.kind.P256Private? then Err(InvalidData)
      else Ok(o.value)
  }

  function VolatileVerify(f: Foreign, v: Volatile.Store, p: bytes): Result<bytes> {
    if |p| < 9 || |p| - 9 < p[8] then Err(WrongLength)
    else
      var signature, message := p[9..9 + p[8] as int], p[9 + p[8] as int..];
      var o :- VolatileAt(v, HandleOf(p[..8]));
      if !o.kind.Aes? || !Volatile.Verifiable(o.flags) then Err(InsufficientPermissions)
      else if !(1 <= |signature| <= 16) then Err(WrongLength)
      else
        var mac := f.cipher.cmac(o.value, message);
        Ok([if |signature| <= |mac| && mac[..|signature|] == signature then 1 else 0])
  }

  function VolatileDelete(v: Volatile.Store, p: bytes): Result<Done> {
    if |p| != 8 then Err(WrongLength)
    else
      var h := HandleOf(p);
      if h in v then Ok(Done([], DropVolatile(h))) else Err(ObjectNotFound)
  }

  function VolatileGenerate(f: Foreign, v: Volatile.Store, p: bytes, env: Env): Result<Done> {
    if |p| != 2 then Err(WrongLength)
    else if !Volatile.ValidFlags(p[0]) || p[1] != EC_P256 || !Volatile.Derivable(p[0]) then Err(InvalidData)
    else
      var key :- FromOption(f.newP256(env.seed), StorageFailed);
      Add(v, Volatile.SessionObject(Volatile.P256Private, p[0], key), f.p256Public(key), env)
  }

  function AgreedSecret(f: Foreign, config: DeviceConfig, s: Durable, v: Volatile.Store, auth: SessionAuthorization,
                        source: Source, peer: bytes): Result<bytes>
  {
    match source
    case FromAsymmetric(id) =>
      var r :- Usable(config, s, auth, ObjectKey(AsymmetricKey, id));
      var _ :- auth.AuthorizeUse(r.info, DERIVE_ECDH, DERIVE_ECDH);
      FromOption(f.agreeStored(r, peer), InvalidData)
    case FromVolatile(handle) =>
      var o :- VolatileAt(v, handle);
      if !Volatile.Derivable(o.flags) then Err(InsufficientPermissions)
      else if !o.kind.P256Private? then Err(InvalidData)
      else FromOption(f.agreeVolatile(o.value, peer), InvalidData)
    case FromSymmetric(_) => Err(InvalidData)
  }

  /** The value of a new object, and what the request says about it. */
  datatype Derivation = Derivation(header: ResultHeader, value: bytes)

  function Derived(h: ResultHeader, value: Result<bytes>): Result<Derivation> {
    if value.Ok? then Ok(Derivation(h, value.value)) else Err(value.error)
  }

  /** The last bytes of an agreed secret. */
  function Tail(value: bytes, n: nat): Result<bytes> {
    if n > |value| then Err(WrongLength) else Ok(value[|value| - n..])
  }

  function DeriveAgreement(f: Foreign, config: DeviceConfig, s: Durable, v: Volatile.Store, auth: SessionAuthorization, p: bytes)
    : Result<Derivation>
  {
    var h :- DecodeResultHeader(p);
    var part :- DecodeSource(p[4..]);
    if |part.rest| < 2 || |part.rest| != 2 + DecodeU16(part.rest[..2]) then Err(WrongLength)
    else
      var peer := part.rest[2..];
      var _ :- CheckResultHeader(h);
      var secret :- AgreedSecret(f, config, s, v, auth, part.source, peer);
      Derived(h, Tail(secret, h.length))
  }

  function DeriveFromKeys(v: Volatile.Store, p: bytes): Result<Derivation> {
    var h :- DecodeResultHeader(p);
    if |p| != 20 then Err(WrongLength)
    else
      var _ :- CheckResultHeader(h);
      var left :- DerivationSecret(v, HandleOf(p[4..12]));
      var right :- DerivationSecret(v, HandleOf(p[12..20]));
      Derived(h, Take(left + right, h.length))
  }

  function DeriveWithData(v: Volatile.Store, p: bytes): Result<Derivation> {
    var h :- DecodeResultHeader(p);
    if |p| < 12 then Err(WrongLength)
    else
      var _ :- CheckResultHeader(h);
      var base :- DerivationSecret(v, HandleOf(p[4..12]));
      Derived(h, Take(base + p[12..], h.length))
  }

  function DeriveExtract(v: Volatile.Store, p: bytes): Result<Derivation> {
    var h :- DecodeResultHeader(p);
    if |p| != 14 then Err(WrongLength)
    else
      var _ :- CheckResultHeader(h);
      var base :- DerivationSecret(v, HandleOf(p[4..12]));
      var offset := DecodeU16(p[12..14]);
      if offset >= 8 * |base| then Err(InvalidData)
      else if h.length > |base| then Err(WrongLength)
      else Ok(Derivation(h, Volatile.Extract(base, offset, h.length)))
  }

  function DeriveHash(f: Foreign, v: Volatile.Store, p: bytes): Result<Derivation> {
    var h :- DecodeResultHeader(p);
    if |p| != 12 then Err(WrongLength)
    else
      var _ :- CheckResultHeader(h);
      if h.length > 32 then Err(WrongLength)
      else
        var base :- DerivationSecret(v, HandleOf(p[4..12]));
        Derived(h, Take(f.hash(base), h.length))
  }

  function KdfSecret(config: DeviceConfig, s: Durable, v: Volatile.Store, auth: SessionAuthorization, source: Source)
    : Result<bytes>
  {
    match source
    case FromSymmetric(id) =>
      var r :- Usable(config, s, auth, ObjectKey(SymmetricKey, id));
      if !IsAes(r.info.algorithm) then Err(InvalidData)
      else
        var _ :- auth.AuthorizeUse(r.info, ENCRYPT_ECB, ENCRYPT_ECB);
        if r.material.Secret? then Ok(r.material.value) else Err(InvalidData)
    case FromVolatile(handle) => DerivationSecret(v, handle)
    case FromAsymmetric(_) => Err(InvalidData)
  }

  function DeriveCounterKdf(f: Foreign, config: DeviceConfig, s: Durable, v: Volatile.Store, auth: SessionAuthorization, p: bytes)
    : Result<Derivation>
  {
    var h :- DecodeResultHeader(p);
    var part :- DecodeSource(p[4..]);
    var refusal := f.kdfRefusal(part.rest);
    if refusal.Some? then Err(refusal.value)
    else
      var _ :- CheckResultHeader(h);
      var key :- KdfSecret(config, s, v, auth, part.source);
      Derived(h, FromOption(f.counterKdf(key, part.rest, h.length), InvalidData))
  }

  /** The operations that derive a value and then store it. */
  function Derive(f: Foreign, config: DeviceConfig, s: Durable, v: Volatile.Store, auth: SessionAuthorization,
                  operation: byte, p: bytes): Result<Derivation>
  {
    match operation
    case 0x03 => DeriveFromKeys(v, p)
    case 0x04 => DeriveWithData(v, p)
    case 0x05 => DeriveExtract(v, p)
    case 0x06 => DeriveHash(f, v, p)
    case 0x07 => DeriveCounterKdf(f, config, s, v, auth, p)
    case 0x57 => DeriveAgreement(f, config, s, v, auth, p)
    case _ => Err(InvalidData)
  }

  function StoreDerived(f: Foreign, config: DeviceConfig, s: Durable, v: Volatile.Store, auth: SessionAuthorization,
                        operation: byte, p: bytes, env: Env): Result<Done>
  {
    var x :- Derive(f, config, s, v, auth, operation, p);
    AddDerived(v, x.header, x.value, env)
  }

  function HandleVolatile(f: Foreign, config: DeviceConfig, s: Durable, v: Option<Volatile.Store>,
                          auth: SessionAuthorization, d: bytes, env: Env): Result<Done>
  {
    if v.None? then Err(InvalidSession)
    else if d == [] then Err(WrongLength)
    else
      var p := d[1..];
      match d[0]
      case 0x01 => AnswerWith(VolatileRead(v.value, p))
      case 0x02 => AnswerWith(VolatileVerify(f, v.value, p))
      case 0x46 => VolatileGenerate(f, v.value, p, env)
      case 0x58 => VolatileDelete(v.value, p)
      case _ => StoreDerived(f, config, s, v.value, auth, d[0], p, env)
  }

  // ----- the rest, and dispatch

  function EnabledAlgorithms(config: DeviceConfig, o: DeviceOptions, algorithms: seq<byte>): bytes {
    if algorithms == [] then []
    else
      (if AlgorithmEnabled(config, o, algorithms[0]) then [algorithms[0]] else [])
      + EnabledAlgorithms(config, o, algorithms[1..])
  }

  function HandlePlain(f: Foreign, config: DeviceConfig, s: Durable, c: CommandCode, d: bytes): Result<bytes> {
    match c
    case 0x01 /* Echo */ => Ok(d)
    case 0x06 /* GetDeviceInfo */ =>
      if |d| > 1 then Err(InvalidData)
      else if |d| == 1 then (if d[0] == 1 then Ok(config.partNumber) else Err(InvalidData))
      else
        var n := |s.log.entries|;
        Ok(config.version + EncodeU32(config.serial) + [config.logCapacity, if n < 0x100 then n else 0xff]
           + EnabledAlgorithms(config, s.options, config.algorithms))
    case _ => if d != [] then Err(WrongLength) else Ok(f.devicePublicKey(s.deviceKey))
  }

  /** The subtraction `1024 - used` is meant for at most 1024 objects. */
  function HandleStorage(s: Durable, d: bytes): Result<bytes> {
    if d != [] then Err(WrongLength)
    else
      var used := |s.objects|;
      Ok(EncodeU16(256) + EncodeU16(if used < 256 then 256 - used else 0) + EncodeU16(1024)
             + EncodeU16((1024 - used) % 0x1_0000) + EncodeU16(126))
  }

  predicate IsFresh(objects: ObjectMap) {
    |objects| == 1 && FACTORY_KEY in objects
  }

  /** Groups whose handlers only read. */
  predicate ReadOnly(g: Group) {
    !(g.Create? || g.WriteOpaque? || g.ChangeKey? || g.Import? || g.ImportKey? || g.Delete? || g.WriteOption?
      || g.TrimEntries? || g.ResetAll? || g.UseVolatile?)
  }

  function HandleRead(f: Foreign, config: DeviceConfig, s: Durable, auth: SessionAuthorization, c: CommandCode,
                      d: bytes, env: Env): Result<bytes>
    requires ReadOnly(GroupOf(c))
  {
    match GroupOf(c)
    case Plain => HandlePlain(f, config, s, c, d)
    case Close => if d == [] then Ok([]) else Err(WrongLength)
    case StorageInfo => HandleStorage(s, d)
    case Random => if |d| != 2 then Err(WrongLength) else Ok(f.random(env.seed, DecodeU16(d)))
    case Blink => if |d| != 1 then Err(WrongLength) else Ok([])
    case ListAll => HandleList(s, auth, d)
    case ReadInfo => HandleInfo(config, s, auth, d)
    case ReadPublicKey => HandlePublicKey(f, s, auth, d)
    case ReadOpaque => HandleOpaqueRead(s, OpaqueObject, d)
    case ReadTemplate => HandleOpaqueRead(s, Template, d)
    case ReadLog => HandleReadLog(s, d)
    case ReadOption => HandleReadOption(config, s, d)
    case UseKey(use) => HandleUse(f, config, s, auth, c, use, d, env)
    case Rewrap => HandleRewrap(f, config, s, auth, d, env)
    case Export(wrapType, rsa) => HandleExport(f, config, s, auth, c, wrapType, rsa, d, env)
    case Attest => HandleAttest(f, s, d, env)
    case Unavailable => Err(InvalidCommand)
  }

  function HandleChange(f: Foreign, config: DeviceConfig, s: Durable, v: Option<Volatile.Store>,
                        auth: SessionAuthorization, c: CommandCode, d: bytes, env: Env): Result<Done>
    requires !ReadOnly(GroupOf(c))
  {
    match GroupOf(c)
    case TrimEntries => if |d| != 2 then Err(WrongLength) else Ok(Done([], TrimLog(DecodeU16(d))))
    case WriteOption =>
      var o :- ApplySetOption(config, IsFresh(s.objects), s.options, d);
      Ok(Done([], ReplaceOptions(o)))
    case Create(recipe) => HandleCreate(f, config, s, auth, recipe, d, env)
    case WriteOpaque => HandleWriteOpaque(f, config, s, auth, d, env)
    case ChangeKey => HandleChangeKey(f, config, s, d)
    case Import => HandleImport(f, config, s, auth, c, d, env)
    case ImportKey => HandleImportKey(f, config, s, auth, d, env)
    case UseVolatile => HandleVolatile(f, config, s, v, auth, d, env)
    case Delete =>
      var k :- DecodeObjectKey(d);
      Ok(Done([], RemoveObject(k)))
    case ResetAll =>
      if d != [] then Err(WrongLength)
      else
        var key :- FromOption(f.keys.generate(EC_P256, env.seed), StorageFailed);
        Ok(Done([], Reset(key)))
  }

  function Handle(f: Foreign, config: DeviceConfig, s: Durable, v: Option<Volatile.Store>, auth: SessionAuthorization,
                  c: CommandCode, d: bytes, env: Env): Result<Done>
  {
    if ReadOnly(GroupOf(c)) then AnswerWith(HandleRead(f, config, s, auth, c, d, env))
    else HandleChange(f, config, s, v, auth, c, d, env)
  }

  function ExecuteResult(f: Foreign, config: DeviceConfig, s: Durable, v: Option<Volatile.Store>,
                         auth: SessionAuthorization, request: Frames.Frame, env: Env): Result<Done>
  {
    var c := FromByte(request.command);
    if c.None? then Err(InvalidCommand)
    else if GroupOf(c.value).Plain? then Handle(f, config, s, v, auth, c.value, request.data, env)
    else if !SupportedCommand(config.firmware, c.value) then Err(InvalidCommand)
    else
      var _ :- Authorize(f, s.objects, auth, c.value, request.data);
      Handle(f, config, s, v, auth, c.value, request.data, env)
  }
}
