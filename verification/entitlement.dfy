/** What a session needs, of itself and of the objects it names, for each command to run. */
module Entitlement {
  import opened Bytes
  import opened Errors
  import opened Capabilities
  import opened Frames
  import opened Objects
  import opened Protocol
  import opened Options
  import opened Requests
  import opened Authorization
  import opened Store
  import opened ForeignCode
  import opened Commands
  import Volatile

  // ----- sessions and objects

  predicate Sees(auth: SessionAuthorization, objects: ObjectMap, k: ObjectKey) {
    k in objects && Meets(auth.domains, objects[k].info.domains)
  }

  /** Session and object both have the capability, and they share a domain. */
  ghost predicate MayUse(auth: SessionAuthorization, objects: ObjectMap, k: ObjectKey, c: Capability) {
    Sees(auth, objects, k) && c in Members(auth.capabilities) * Members(objects[k].info.capabilities)
  }

  /** The identifier that a request spells at a position. */
  function Id(d: bytes, i: nat): u16
    requires i + 2 <= |d|
  {
    (d[i] as int) * 0x100 + d[i + 1]
  }

  predicate Typed(d: bytes) {
    |d| >= 3 && 1 <= d[2] <= 9
  }

  const TYPES: seq<ObjectType> := [
    OpaqueObject, AuthenticationKey, AsymmetricKey, WrapKey, HmacKey, Template, OtpAeadKey, SymmetricKey, PublicWrapKey]

  const DELETIONS: seq<Capability> := [
    DELETE_OPAQUE, DELETE_AUTHENTICATION_KEY, DELETE_ASYMMETRIC_KEY, DELETE_WRAP_KEY, DELETE_HMAC_KEY, DELETE_TEMPLATE,
    DELETE_OTP_AEAD_KEY, DELETE_SYMMETRIC_KEY, DELETE_PUBLIC_WRAP_KEY]

  /** The object that an identifier followed by a type byte names. */
  function TypedKey(d: bytes): ObjectKey
    requires Typed(d)
  {
    ObjectKey(TYPES[d[2] - 1], Id(d, 0))
  }

  // ----- each command

  ghost predicate ExportEntitled(auth: SessionAuthorization, objects: ObjectMap, wrapType: ObjectType, d: bytes)
    requires |d| >= 5 && Typed(d)
  {
    var wrap := ObjectKey(wrapType, Id(d, 0));
    var key := ObjectKey(TYPES[d[2] - 1], Id(d, 3));
    && MayUse(auth, objects, wrap, EXPORT_WRAPPED)
    && Sees(auth, objects, key)
    && EXPORTABLE_UNDER_WRAP in Members(objects[key].info.capabilities)
    && Members(objects[key].info.capabilities) <= Members(objects[wrap].info.delegated)
  }

  ghost predicate AttestEntitled(auth: SessionAuthorization, objects: ObjectMap, d: bytes)
    requires |d| == 4
  {
    && (Id(d, 0) != 0 ==> Sees(auth, objects, ObjectKey(AsymmetricKey, Id(d, 0))))
    && (Id(d, 2) != 0 ==>
          && MayUse(auth, objects, ObjectKey(AsymmetricKey, Id(d, 2)), SIGN_ATTESTATION_CERTIFICATE)
          && (ObjectKey(OpaqueObject, Id(d, 2)) in objects ==> Sees(auth, objects, ObjectKey(OpaqueObject, Id(d, 2)))))
  }

  /** The request is well formed and the session is entitled to what it asks of objects. */
  ghost predicate Entitled(f: Foreign, objects: ObjectMap, auth: SessionAuthorization, c: CommandCode, d: bytes) {
    match c
    case 0x42 /* PutOpaque */ =>
      |d| >= 53 && var k := ObjectKey(OpaqueObject, Id(d, 0));
                   Id(d, 0) != 0 && k in objects ==> MayUse(auth, objects, k, PUT_OPAQUE)
    case 0x43 /* GetOpaque */ => |d| == 2 && Sees(auth, objects, ObjectKey(OpaqueObject, Id(d, 0)))
    case 0x4a /* ExportWrapped */ => 5 <= |d| <= 6 && Typed(d) && ExportEntitled(auth, objects, WrapKey, d)
    case 0x4b /* ImportWrapped */ => |d| >= 16 && MayUse(auth, objects, ObjectKey(WrapKey, Id(d, 0)), IMPORT_WRAPPED)
    case 0x4e /* GetObjectInfo */ => |d| == 3 && Typed(d) && Sees(auth, objects, TypedKey(d))
    case 0x54 /* GetPublicKey */ =>
      if |d| == 2 then Sees(auth, objects, ObjectKey(AsymmetricKey, Id(d, 0)))
      else |d| == 3 && Typed(d) && Sees(auth, objects, TypedKey(d))
    case 0x58 /* DeleteObject */ =>
      |d| == 3 && Typed(d) && Sees(auth, objects, TypedKey(d)) && DELETIONS[d[2] - 1] in Members(auth.capabilities)
    case 0x5f /* GetTemplate */ => |d| == 2 && MayUse(auth, objects, ObjectKey(Template, Id(d, 0)), GET_TEMPLATE)
    case 0x63 /* RewrapOtpAead */ =>
      && |d| == 40
      && MayUse(auth, objects, ObjectKey(OtpAeadKey, Id(d, 0)), REWRAP_FROM_OTP_AEAD_KEY)
      && MayUse(auth, objects, ObjectKey(OtpAeadKey, Id(d, 2)), REWRAP_TO_OTP_AEAD_KEY)
    case 0x64 /* SignAttestationCertificate */ => |d| == 4 && AttestEntitled(auth, objects, d)
    case 0x6c /* ChangeAuthenticationKey */ =>
      && |d| >= 3 && Id(d, 0) == auth.keyId
      && MayUse(auth, objects, ObjectKey(AuthenticationKey, Id(d, 0)), CHANGE_AUTHENTICATION_KEY)
    case 0x74 /* GetRsaWrappedKey */ => |d| >= 8 && Typed(d) && ExportEntitled(auth, objects, PublicWrapKey, d)
    case 0x75 /* PutRsaWrappedKey */ =>
      |d| >= 58 && Typed(d) && MayUse(auth, objects, ObjectKey(WrapKey, Id(d, 0)), IMPORT_WRAPPED)
    case 0x76 /* ExportRsaWrapped */ => |d| >= 8 && Typed(d) && ExportEntitled(auth, objects, PublicWrapKey, d)
    case 0x77 /* ImportRsaWrapped */ => |d| >= 4 && MayUse(auth, objects, ObjectKey(WrapKey, Id(d, 0)), IMPORT_WRAPPED)
    case _ =>
      var use := KeyUseOf(c);
      use.Some? ==>
        && DecodeUse(f.prehash, c, use.value, d).Ok?
        && |d| >= 2 && MayUse(auth, objects, ObjectKey(use.value.objectType, Id(d, 0)), use.value.capability)
  }

  /** Capabilities that the session itself needs for commands that name no object. */
  ghost predicate Capable(auth: SessionAuthorization, c: CommandCode) {
    match c
    case 0x08 /* ResetDevice */ => RESET_DEVICE in Members(auth.capabilities)
    case 0x0b /* SessionObject */ => SESSION_OBJECTS in Members(auth.capabilities)
    case 0x42 /* PutOpaque */ => PUT_OPAQUE in Members(auth.capabilities)
    case 0x43 /* GetOpaque */ => GET_OPAQUE in Members(auth.capabilities)
    case 0x44 /* PutAuthenticationKey */ => PUT_AUTHENTICATION_KEY in Members(auth.capabilities)
    case 0x45 /* PutAsymmetricKey */ => PUT_ASYMMETRIC_KEY in Members(auth.capabilities)
    case 0x46 /* GenerateAsymmetricKey */ => GENERATE_ASYMMETRIC_KEY in Members(auth.capabilities)
    case 0x4c /* PutWrapKey */ => PUT_WRAP_KEY in Members(auth.capabilities)
    case 0x4d /* GetLogEntries */ => GET_LOG_ENTRIES in Members(auth.capabilities)
    case 0x4f /* SetOption */ => SET_OPTION in Members(auth.capabilities)
    case 0x50 /* GetOption */ => GET_OPTION in Members(auth.capabilities)
    case 0x51 /* GetPseudoRandom */ => GET_PSEUDO_RANDOM in Members(auth.capabilities)
    case 0x52 /* PutHmacKey */ => PUT_MAC_KEY in Members(auth.capabilities)
    case 0x5a /* GenerateHmacKey */ => GENERATE_HMAC_KEY in Members(auth.capabilities)
    case 0x5b /* GenerateWrapKey */ => GENERATE_WRAP_KEY in Members(auth.capabilities)
    case 0x5d /* SignSshCertificate */ => SIGN_SSH_CERTIFICATE in Members(auth.capabilities)
    case 0x5e /* PutTemplate */ => PUT_TEMPLATE in Members(auth.capabilities)
    case 0x64 /* SignAttestationCertificate */ => SIGN_ATTESTATION_CERTIFICATE in Members(auth.capabilities)
    case 0x65 /* PutOtpAeadKey */ => PUT_OTP_AEAD_KEY in Members(auth.capabilities)
    case 0x66 /* GenerateOtpAeadKey */ => GENERATE_OTP_AEAD_KEY in Members(auth.capabilities)
    case 0x67 /* SetLogIndex */ => SET_OPTION in Members(auth.capabilities)
    case 0x6d /* PutSymmetricKey */ => PUT_SYMMETRIC_KEY in Members(auth.capabilities)
    case 0x6e /* GenerateSymmetricKey */ => GENERATE_SYMMETRIC_KEY in Members(auth.capabilities)
    case 0x73 /* PutPublicWrapKey */ => PUT_PUBLIC_WRAP_KEY in Members(auth.capabilities)
    case _ => true
  }

  // ----- authorization decides exactly that

  lemma UseExactly(auth: SessionAuthorization, objects: ObjectMap, k: ObjectKey, c: Capability)
    ensures AuthorizeObject(objects, auth, k, c).Ok? <==> MayUse(auth, objects, k, c)
    ensures RequireObjectVisible(objects, auth, k).Ok? <==> Sees(auth, objects, k)
  {
  }

  /** Which refusal: an object that is not seen is not found; anything else is a missing permission. */
  lemma RefusalsTell(auth: SessionAuthorization, objects: ObjectMap, k: ObjectKey, c: Capability)
    ensures AuthorizeObject(objects, auth, k, c)
            == if !Sees(auth, objects, k) then Err(ObjectNotFound)
               else if MayUse(auth, objects, k, c) then Ok(()) else Err(InsufficientPermissions)
  {
  }

  lemma IdIsDecoded(d: bytes, i: nat)
    requires i + 2 <= |d|
    ensures DecodeU16(d[i..i + 2]) == Id(d, i)
    ensures i == 0 ==> DecodeU16(d[..2]) == Id(d, 0)
  {
  }

  lemma TypeExactly(d: bytes)
    requires |d| >= 3
    ensures TypeFromByte(d[2]).Some? <==> Typed(d)
    ensures Typed(d) ==> TypeFromByte(d[2]) == Some(TYPES[d[2] - 1])
                         && TYPES[d[2] - 1].DeletionCapability() == DELETIONS[d[2] - 1]
  {
  }

  /** Key use is entitled when the request decodes and the key at its head may be used. */
  ghost predicate UseEntitled(f: Foreign, objects: ObjectMap, auth: SessionAuthorization, c: CommandCode, use: KeyUse, d: bytes)
    requires KeyUseOf(c) == Some(use)
  {
    && DecodeUse(f.prehash, c, use, d).Ok?
    && |d| >= 2 && MayUse(auth, objects, ObjectKey(use.objectType, Id(d, 0)), use.capability)
  }

  lemma UsesAreLong(c: CommandCode)
    ensures KeyUseOf(c).Some? ==> KeyUseOf(c).value.minimum >= 2
  {
  }

  lemma DecodedUse(f: Foreign, c: CommandCode, use: KeyUse, d: bytes)
    requires KeyUseOf(c) == Some(use) && DecodeUse(f.prehash, c, use, d).Ok?
    ensures |d| >= 2 && DecodeUse(f.prehash, c, use, d).value == Id(d, 0)
  {
    UsesAreLong(c);
  }

  /** The commands with a rule of their own. */
  predicate HasOwnRule(c: byte) {
    c in {0x42, 0x43, 0x4a, 0x4b, 0x4e, 0x54, 0x58, 0x5f, 0x63, 0x64, 0x6c, 0x74, 0x75, 0x76, 0x77}
  }

  lemma UsesHaveNoRule(c: CommandCode)
    requires KeyUseOf(c).Some?
    ensures !HasOwnRule(c)
  {
  }

  /** The commands that have a group of their own. */
  predicate HasOwnGroup(c: byte) {
    c in {0x01, 0x06, 0x08, 0x0a, 0x0b, 0x40, 0x41, 0x42, 0x43, 0x44, 0x45, 0x46, 0x48, 0x4a, 0x4b, 0x4c, 0x4d, 0x4e, 0x4f,
          0x50, 0x51, 0x52, 0x54, 0x58, 0x5a, 0x5b, 0x5e, 0x5f, 0x63, 0x64, 0x65, 0x66, 0x67, 0x6b, 0x6c, 0x6d, 0x6e, 0x73,
          0x74, 0x75, 0x76, 0x77}
  }

  lemma UsesHaveNoGroup(c: CommandCode)
    requires KeyUseOf(c).Some?
    ensures !HasOwnGroup(c)
  {
  }

  lemma OthersAreGrouped(c: CommandCode)
    requires !HasOwnGroup(c)
    ensures GroupOf(c) == var use := KeyUseOf(c); if use.Some? then UseKey(use.value) else Unavailable
  {
  }

  lemma UsesAreGrouped(c: CommandCode)
    requires KeyUseOf(c).Some?
    ensures GroupOf(c) == UseKey(KeyUseOf(c).value)
  {
    UsesHaveNoGroup(c);
    OthersAreGrouped(c);
  }

  lemma OtherwiseUse(f: Foreign, objects: ObjectMap, auth: SessionAuthorization, c: CommandCode, use: KeyUse, d: bytes)
    requires KeyUseOf(c) == Some(use) && !HasOwnRule(c)
    ensures Entitled(f, objects, auth, c, d) <==> UseEntitled(f, objects, auth, c, use, d)
  {
  }

  lemma UseIsGroup(f: Foreign, objects: ObjectMap, auth: SessionAuthorization, c: CommandCode, use: KeyUse, d: bytes)
    requires KeyUseOf(c) == Some(use)
    ensures GroupOf(c) == UseKey(use)
    ensures Entitled(f, objects, auth, c, d) <==> UseEntitled(f, objects, auth, c, use, d)
  {
    UsesHaveNoRule(c);
    UsesAreGrouped(c);
    OtherwiseUse(f, objects, auth, c, use, d);
  }

  lemma KeyUseExactly(f: Foreign, objects: ObjectMap, auth: SessionAuthorization, c: CommandCode, d: bytes)
    requires KeyUseOf(c).Some?
    ensures AuthorizeGroup(f, objects, auth, c, d).Ok? <==> Entitled(f, objects, auth, c, d)
  {
    var use := KeyUseOf(c).value;
    UseIsGroup(f, objects, auth, c, use, d);
    if DecodeUse(f.prehash, c, use, d).Ok? {
      DecodedUse(f, c, use, d);
      UseExactly(auth, objects, ObjectKey(use.objectType, Id(d, 0)), use.capability);
    }
  }

  lemma ExportExactly(f: Foreign, objects: ObjectMap, auth: SessionAuthorization, c: CommandCode, d: bytes)
    requires c == 0x4a || c == 0x74 || c == 0x76
    ensures AuthorizeGroup(f, objects, auth, c, d).Ok? <==> Entitled(f, objects, auth, c, d)
  {
    if |d| >= 5 {
      IdIsDecoded(d, 0);
      IdIsDecoded(d, 3);
      TypeExactly(d);
      if Typed(d) {
        var wrap, key := ObjectKey(if c == 0x4a then WrapKey else PublicWrapKey, Id(d, 0)), ObjectKey(TYPES[d[2] - 1], Id(d, 3));
        if wrap in objects && key in objects {
          WrappingExactly(auth, objects[key].info, objects[wrap].info);
        }
      }
    }
  }

  lemma TwoKeysExactly(f: Foreign, objects: ObjectMap, auth: SessionAuthorization, c: CommandCode, d: bytes)
    requires c == 0x63 || c == 0x64
    ensures AuthorizeGroup(f, objects, auth, c, d).Ok? <==> Entitled(f, objects, auth, c, d)
  {
    if |d| >= 4 {
      IdIsDecoded(d, 0);
      IdIsDecoded(d, 2);
      if c == 0x63 {
        UseExactly(auth, objects, ObjectKey(OtpAeadKey, Id(d, 0)), REWRAP_FROM_OTP_AEAD_KEY);
        UseExactly(auth, objects, ObjectKey(OtpAeadKey, Id(d, 2)), REWRAP_TO_OTP_AEAD_KEY);
      } else if |d| == 4 {
        assert d[2..] == d[2..4];
        UseExactly(auth, objects, ObjectKey(AsymmetricKey, Id(d, 0)), SIGN_ATTESTATION_CERTIFICATE);
        UseExactly(auth, objects, ObjectKey(AsymmetricKey, Id(d, 2)), SIGN_ATTESTATION_CERTIFICATE);
        UseExactly(auth, objects, ObjectKey(OpaqueObject, Id(d, 2)), SIGN_ATTESTATION_CERTIFICATE);
      }
    }
  }

  lemma WriterExactly(f: Foreign, objects: ObjectMap, auth: SessionAuthorization, c: CommandCode, d: bytes)
    requires c == 0x42 || c == 0x4b || c == 0x75 || c == 0x77 || c == 0x6c
    ensures AuthorizeGroup(f, objects, auth, c, d).Ok? <==> Entitled(f, objects, auth, c, d)
  {
    if |d| >= 3 {
      IdIsDecoded(d, 0);
      TypeExactly(d);
      UseExactly(auth, objects, ObjectKey(OpaqueObject, Id(d, 0)), PUT_OPAQUE);
      UseExactly(auth, objects, ObjectKey(WrapKey, Id(d, 0)), IMPORT_WRAPPED);
      UseExactly(auth, objects, ObjectKey(AuthenticationKey, Id(d, 0)), CHANGE_AUTHENTICATION_KEY);
    }
  }

  lemma ReaderExactly(f: Foreign, objects: ObjectMap, auth: SessionAuthorization, c: CommandCode, d: bytes)
    requires c == 0x43 || c == 0x4e || c == 0x54 || c == 0x5f
    ensures AuthorizeGroup(f, objects, auth, c, d).Ok? <==> Entitled(f, objects, auth, c, d)
  {
    if |d| >= 2 {
      IdIsDecoded(d, 0);
      assert |d| == 2 ==> d[..2] == d;
      UseExactly(auth, objects, ObjectKey(OpaqueObject, Id(d, 0)), GET_OPAQUE);
      UseExactly(auth, objects, ObjectKey(Template, Id(d, 0)), GET_TEMPLATE);
      UseExactly(auth, objects, ObjectKey(AsymmetricKey, Id(d, 0)), GET_OPAQUE);
      if |d| >= 3 {
        TypeExactly(d);
        if Typed(d) {
          UseExactly(auth, objects, TypedKey(d), GET_OPAQUE);
        }
      }
    }
  }

  lemma DeleteExactly(f: Foreign, objects: ObjectMap, auth: SessionAuthorization, d: bytes)
    requires forall k | k in objects :: objects[k].info.Key() == k
    ensures AuthorizeGroup(f, objects, auth, 0x58, d).Ok? <==> Entitled(f, objects, auth, 0x58, d)
  {
    if |d| >= 3 {
      IdIsDecoded(d, 0);
      TypeExactly(d);
      if Typed(d) && TypedKey(d) in objects {
        assert objects[TypedKey(d)].info.Key() == TypedKey(d);
      }
    }
  }

  lemma GroupExactly(f: Foreign, objects: ObjectMap, auth: SessionAuthorization, c: CommandCode, d: bytes)
    requires forall k | k in objects :: objects[k].info.Key() == k
    ensures AuthorizeGroup(f, objects, auth, c, d).Ok? <==> Entitled(f, objects, auth, c, d)
  {
    if KeyUseOf(c).Some? {
      KeyUseExactly(f, objects, auth, c, d);
    } else if c == 0x4a || c == 0x74 || c == 0x76 {
      ExportExactly(f, objects, auth, c, d);
    } else if c == 0x63 || c == 0x64 {
      TwoKeysExactly(f, objects, auth, c, d);
    } else if c == 0x42 || c == 0x4b || c == 0x75 || c == 0x77 || c == 0x6c {
      WriterExactly(f, objects, auth, c, d);
    } else if c == 0x43 || c == 0x4e || c == 0x54 || c == 0x5f {
      ReaderExactly(f, objects, auth, c, d);
    } else if c == 0x58 {
      DeleteExactly(f, objects, auth, d);
    }
  }

  lemma CapableExactly(auth: SessionAuthorization, c: CommandCode)
    ensures RequireFor(auth, c).Ok? ==> Capable(auth, c)
    ensures Capable(auth, c) && KeyUseOf(c).None? && c !in {0x4a, 0x4b, 0x5f, 0x6c, 0x74, 0x75, 0x76, 0x77} ==> RequireFor(auth, c).Ok?
  {
  }

  /** What the remaining commands require of the session, they require of its use of objects too. */
  lemma EntitledIsCapable(f: Foreign, objects: ObjectMap, auth: SessionAuthorization, c: CommandCode, d: bytes)
    requires Entitled(f, objects, auth, c, d) && (KeyUseOf(c).Some? || c in {0x4a, 0x4b, 0x5f, 0x6c, 0x74, 0x75, 0x76, 0x77})
    ensures RequireFor(auth, c).Ok?
  {
    RegistryTables(c);
    if KeyUseOf(c).Some? {
      UseIsGroup(f, objects, auth, c, KeyUseOf(c).value, d);
    }
  }

  lemma RegistryTables(c: CommandCode)
    ensures KeyUseOf(c).Some? ==> RequiredSessionCapability(c) == Some(KeyUseOf(c).value.capability)
    ensures c in {0x4a, 0x74, 0x76} ==> RequiredSessionCapability(c) == Some(EXPORT_WRAPPED)
    ensures c in {0x4b, 0x75, 0x77} ==> RequiredSessionCapability(c) == Some(IMPORT_WRAPPED)
    ensures c == 0x5f ==> RequiredSessionCapability(c) == Some(GET_TEMPLATE)
    ensures c == 0x6c ==> RequiredSessionCapability(c) == Some(CHANGE_AUTHENTICATION_KEY)
  {
  }

  /** A command is authorized exactly when the session has what it needs itself and is entitled to
      what the request asks of objects. */
  lemma AuthorizedExactly(f: Foreign, objects: ObjectMap, auth: SessionAuthorization, c: CommandCode, d: bytes)
    requires forall k | k in objects :: objects[k].info.Key() == k
    ensures Authorize(f, objects, auth, c, d).Ok? <==> Capable(auth, c) && Entitled(f, objects, auth, c, d)
  {
    GroupExactly(f, objects, auth, c, d);
    CapableExactly(auth, c);
    if Entitled(f, objects, auth, c, d) && (KeyUseOf(c).Some? || c in {0x4a, 0x4b, 0x5f, 0x6c, 0x74, 0x75, 0x76, 0x77}) {
      EntitledIsCapable(f, objects, auth, c, d);
    }
  }

  // ----- and nothing runs without it

  /** The three commands that need no session. */
  predicate NeedsNoSession(c: byte) {
    c == 0x01 /* Echo */ || c == 0x06 /* GetDeviceInfo */ || c == 0x0a /* GetDevicePublicKey */
  }

  lemma RunIsSupported(f: Foreign, config: DeviceConfig, s: Durable, v: Option<Volatile.Store>, auth: SessionAuthorization,
                       request: Frame, env: Env)
    requires ExecuteResult(f, config, s, v, auth, request, env).Ok?
    ensures IsCommand(request.command)
    ensures SupportedCommand(config.firmware, request.command) || NeedsNoSession(request.command)
  {
    if IsCommand(request.command) {
      OnlyPlainNeedNone(request.command);
    }
  }

  lemma OnlyPlainNeedNone(c: CommandCode)
    ensures GroupOf(c).Plain? <==> NeedsNoSession(c)
  {
  }

  lemma RunIsAuthorized(f: Foreign, config: DeviceConfig, s: Durable, v: Option<Volatile.Store>, auth: SessionAuthorization,
                        request: Frame, env: Env)
    requires ExecuteResult(f, config, s, v, auth, request, env).Ok? && !NeedsNoSession(request.command)
    ensures IsCommand(request.command) && SupportedCommand(config.firmware, request.command)
    ensures Authorize(f, s.objects, auth, request.command, request.data).Ok?
    ensures ExecuteResult(f, config, s, v, auth, request, env) == Handle(f, config, s, v, auth, request.command, request.data, env)
  {
    RunIsSupported(f, config, s, v, auth, request, env);
    OnlyPlainNeedNone(request.command);
  }

  /** A command that runs is one that the firmware supports and the session is entitled to. */
  lemma OnlyEntitledRuns(f: Foreign, config: DeviceConfig, s: Durable, v: Option<Volatile.Store>, auth: SessionAuthorization,
                         request: Frame, env: Env)
    requires forall k | k in s.objects :: s.objects[k].info.Key() == k
    requires ExecuteResult(f, config, s, v, auth, request, env).Ok? && !NeedsNoSession(request.command)
    ensures IsCommand(request.command) && SupportedCommand(config.firmware, request.command)
    ensures Capable(auth, request.command) && Entitled(f, s.objects, auth, request.command, request.data)
  {
    RunIsAuthorized(f, config, s, v, auth, request, env);
    AuthorizedExactly(f, s.objects, auth, request.command, request.data);
  }

  // ----- the answer of a command that uses a key

  lemma UsableExactly(config: DeviceConfig, s: Durable, auth: SessionAuthorization, k: ObjectKey)
    ensures Usable(config, s, auth, k).Ok?
            <==> Sees(auth, s.objects, k) && AlgorithmEnabled(config, s.options, s.objects[k].info.algorithm)
    ensures Usable(config, s, auth, k).Ok? ==> Usable(config, s, auth, k).value == s.objects[k]
  {
  }

  lemma HandledUse(f: Foreign, config: DeviceConfig, s: Durable, auth: SessionAuthorization, c: CommandCode, use: KeyUse,
                   d: bytes, env: Env)
    requires KeyUseOf(c) == Some(use) && HandleUse(f, config, s, auth, c, use, d, env).Ok?
    ensures
      && |d| >= 2
      && var k := ObjectKey(use.objectType, Id(d, 0));
         k in s.objects && AlgorithmEnabled(config, s.options, s.objects[k].info.algorithm)
         && HandleUse(f, config, s, auth, c, use, d, env) == f.useKey(c, s.objects[k], d, env.seed)
  {
    DecodedUse(f, c, use, d);
    UsableExactly(config, s, auth, ObjectKey(use.objectType, Id(d, 0)));
  }

  /** A key use that succeeds is the library's use of the very object the request names, whose
      algorithm is enabled; and it changes nothing. */
  lemma KeyUseAnswers(f: Foreign, config: DeviceConfig, s: Durable, v: Option<Volatile.Store>, auth: SessionAuthorization,
                      request: Frame, env: Env)
    requires IsCommand(request.command) && KeyUseOf(request.command).Some?
    requires ExecuteResult(f, config, s, v, auth, request, env).Ok?
    ensures
      var done := ExecuteResult(f, config, s, v, auth, request, env).value;
      var use := KeyUseOf(request.command).value;
      && done.effect.NoEffect?
      && |request.data| >= 2
      && var k := ObjectKey(use.objectType, Id(request.data, 0));
         && MayUse(auth, s.objects, k, use.capability)
         && AlgorithmEnabled(config, s.options, s.objects[k].info.algorithm)
         && f.useKey(request.command, s.objects[k], request.data, env.seed) == Ok(done.data)
  {
    var c, d := request.command, request.data;
    var use := KeyUseOf(c).value;
    UseIsGroup(f, s.objects, auth, c, use, d);
    RunIsAuthorized(f, config, s, v, auth, request, env);
    KeyUseExactly(f, s.objects, auth, c, d);
    UseHandled(f, config, s, v, auth, c, use, d, env);
    HandledUse(f, config, s, auth, c, use, d, env);
  }

  lemma UseHandled(f: Foreign, config: DeviceConfig, s: Durable, v: Option<Volatile.Store>, auth: SessionAuthorization,
                   c: CommandCode, use: KeyUse, d: bytes, env: Env)
    requires KeyUseOf(c) == Some(use) && GroupOf(c) == UseKey(use)
    ensures Handle(f, config, s, v, auth, c, d, env) == AnswerWith(HandleUse(f, config, s, auth, c, use, d, env))
  {
  }
}
