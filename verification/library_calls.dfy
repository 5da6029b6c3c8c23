/** What commands that use stored objects ask of the cryptographic library, and when. */
module LibraryCalls {
  import opened Bytes
  import opened Errors
  import opened Objects
  import opened Protocol
  import opened Options
  import opened Requests
  import opened Authorization
  import opened Store
  import opened ForeignCode
  import opened Commands
  import opened Entitlement
  import Envelope

  // ----- using one key

  /** The form of a request that uses one key. */
  predicate UseForm(prehash: byte -> Option<nat>, c: CommandCode, d: bytes) {
    match c
    case 0x47 /* SignPkcs1 */ => |d| >= 3
    case 0x49 /* DecryptPkcs1 */ => |d| >= 3
    case 0x56 /* SignEcdsa */ => |d| >= 3
    case 0x57 /* DeriveEcdh */ => |d| >= 3
    case 0x59 /* DecryptOaep */ => |d| >= 3
    case 0x0f /* DecapsulateMlKem */ => |d| >= 3
    case 0x55 /* SignPss */ => |d| >= 6
    case 0x6a /* SignEddsa */ => |d| >= 2
    case 0x11 /* DecapsulateHybridKem */ => |d| >= 2
    case 0x53 /* SignHmac */ => |d| >= 2
    case 0x5c /* VerifyHmac */ => |d| >= 2
    case 0x68 /* WrapData */ => |d| >= 2
    case 0x0e /* EncapsulateMlKem */ => |d| == 2
    case 0x10 /* EncapsulateHybridKem */ => |d| == 2
    case 0x62 /* RandomizeOtpAead */ => |d| == 2
    case 0x61 /* CreateOtpAead */ => |d| == 24
    case 0x60 /* DecryptOtp */ => |d| == 54
    case 0x69 /* UnwrapData */ => |d| >= 32 && d[2] == 1
    case 0x70 /* EncryptEcb */ => |d| >= 18 && |d| % 16 == 2
    case 0x6f /* DecryptEcb */ => |d| >= 18 && |d| % 16 == 2
    case 0x72 /* EncryptCbc */ => |d| >= 34 && |d| % 16 == 2
    case 0x71 /* DecryptCbc */ => |d| >= 34 && |d| % 16 == 2
    case 0x0d /* SignMlDsa */ => |d| >= 5 && |d| >= 5 + d[4] as int && (d[3] != 0 ==> prehash(d[3]) == Some(|d| - 5 - d[4]))
    case 0x0c /* DeriveEcdhKdf */ =>
      |d| >= 11 && |d| == 11 + Id(d, 5) + Id(d, 7) + Id(d, 9) && 1 <= d[2] <= 9 && 1 <= Id(d, 3) <= 8172
    case _ => false
  }

  lemma UseFormExactly(prehash: byte -> Option<nat>, c: CommandCode, d: bytes)
    requires KeyUseOf(c).Some?
    ensures DecodeUse(prehash, c, KeyUseOf(c).value, d).Ok? && EarlyRefusal(Envelope.SecureResponseDataFits, c, d).None?
            <==> UseForm(prehash, c, d)
  {
    if c == 0x0c && |d| >= 11 {
      IdIsDecoded(d, 3);
      IdIsDecoded(d, 5);
      IdIsDecoded(d, 7);
      IdIsDecoded(d, 9);
      Envelope.FitsExactly(Id(d, 3));
    }
  }

  /** The type of key that each command uses. */
  lemma UseTypes(c: CommandCode)
    requires KeyUseOf(c).Some?
    ensures
      KeyUseOf(c).value.objectType
      == if c == 0x53 || c == 0x5c then HmacKey
         else if c == 0x68 || c == 0x69 then WrapKey
         else if 0x6f <= c <= 0x72 then SymmetricKey
         else if 0x60 <= c <= 0x62 then OtpAeadKey
         else AsymmetricKey
  {
  }

  lemma UseAnswersExactly(f: Foreign, config: DeviceConfig, s: Durable, auth: SessionAuthorization, c: CommandCode, d: bytes,
                          env: Env, answer: bytes)
    requires KeyUseOf(c).Some?
    ensures HandleUse(f, config, s, auth, c, KeyUseOf(c).value, d, env) == Ok(answer)
            <==> && UseForm(f.prehash, c, d) && |d| >= 2
                 && var k := ObjectKey(KeyUseOf(c).value.objectType, Id(d, 0));
                    && Sees(auth, s.objects, k) && AlgorithmEnabled(config, s.options, s.objects[k].info.algorithm)
                    && f.useKey(c, s.objects[k], d, env.seed) == Ok(answer)
  {
    var use := KeyUseOf(c).value;
    UseFormExactly(f.prehash, c, d);
    if DecodeUse(f.prehash, c, use, d).Ok? {
      DecodedUse(f, c, use, d);
      UsableExactly(config, s, auth, ObjectKey(use.objectType, Id(d, 0)));
    }
  }

  /** Rewrapping gives the library both keys in the order named. */
  lemma RewrapAnswersExactly(f: Foreign, config: DeviceConfig, s: Durable, auth: SessionAuthorization, d: bytes, env: Env, answer: bytes)
    ensures HandleRewrap(f, config, s, auth, d, env) == Ok(answer)
            <==> && |d| == 40
                 && var from, to := ObjectKey(OtpAeadKey, Id(d, 0)), ObjectKey(OtpAeadKey, Id(d, 2));
                    && Sees(auth, s.objects, from) && AlgorithmEnabled(config, s.options, s.objects[from].info.algorithm)
                    && Sees(auth, s.objects, to) && AlgorithmEnabled(config, s.options, s.objects[to].info.algorithm)
                    && f.rewrap(s.objects[from], s.objects[to], d[4..], env.seed) == Ok(answer)
  {
    if |d| == 40 {
      IdIsDecoded(d, 0);
      IdIsDecoded(d, 2);
      UsableExactly(config, s, auth, ObjectKey(OtpAeadKey, Id(d, 0)));
      UsableExactly(config, s, auth, ObjectKey(OtpAeadKey, Id(d, 2)));
    }
  }

  // ----- public keys

  /** The object whose public key is asked for: of one of the four types that have one. */
  predicate AsksPublicKey(d: bytes, k: ObjectKey) {
    if |d| == 2 then k == ObjectKey(AsymmetricKey, Id(d, 0))
    else |d| == 3 && d[2] in {2, 3, 4, 9} && k == TypedKey(d)
  }

  lemma PublicKeyExactly(f: Foreign, s: Durable, auth: SessionAuthorization, d: bytes, answer: bytes)
    ensures HandlePublicKey(f, s, auth, d) == Ok(answer)
            <==> exists k :: AsksPublicKey(d, k) && Sees(auth, s.objects, k) && f.publicKey(s.objects[k]) == Ok(answer)
  {
    if |d| >= 2 {
      IdIsDecoded(d, 0);
      if |d| >= 3 {
        TypeExactly(d);
      }
      if |d| == 2 {
        assert d[..2] == d;
        assert AsksPublicKey(d, ObjectKey(AsymmetricKey, Id(d, 0)));
      } else if |d| == 3 && d[2] in {2, 3, 4, 9} {
        assert AsksPublicKey(d, TypedKey(d));
      }
    }
  }

  // ----- wrapping and attesting

  function WrapTypeOf(c: CommandCode): ObjectType {
    if c == 0x4a then WrapKey else PublicWrapKey
  }

  /** The form of a wrapping request, and the algorithm of the wrap key. */
  predicate ExportForm(c: CommandCode, d: bytes, algorithm: byte) {
    if c == 0x4a then 5 <= |d| <= 6 && (|d| == 6 ==> d[5] <= 1) && algorithm in {29, 41, 42} else |d| >= 8
  }

  /** The library wraps the object named second under the key named first. */
  lemma ExportAnswersExactly(f: Foreign, config: DeviceConfig, s: Durable, auth: SessionAuthorization, c: CommandCode, d: bytes,
                             env: Env, answer: bytes)
    requires c in {0x4a, 0x74, 0x76}
    ensures GroupOf(c) == Export(WrapTypeOf(c), c != 0x4a)
    ensures HandleExport(f, config, s, auth, c, WrapTypeOf(c), c != 0x4a, d, env) == Ok(answer)
            <==> && |d| >= 5 && Typed(d)
                 && var wrap, target := ObjectKey(WrapTypeOf(c), Id(d, 0)), ObjectKey(TYPES[d[2] - 1], Id(d, 3));
                    && Sees(auth, s.objects, wrap) && AlgorithmEnabled(config, s.options, s.objects[wrap].info.algorithm)
                    && target in s.objects && ExportForm(c, d, s.objects[wrap].info.algorithm)
                    && f.export_(c, s.objects[wrap], s.objects[target], s.options.fipsMode != 0, d, env.seed) == Ok(answer)
  {
    if |d| >= 5 {
      IdIsDecoded(d, 0);
      IdIsDecoded(d, 3);
      TypeExactly(d);
      UsableExactly(config, s, auth, ObjectKey(WrapTypeOf(c), Id(d, 0)));
    }
  }

  function Held(objects: ObjectMap, t: ObjectType, id: u16): Option<ObjectRecord> {
    var k := ObjectKey(t, id);
    if k in objects then Some(objects[k]) else None
  }

  /** Attestation is of the key named first, by the key named second and its template certificate. */
  lemma AttestAnswersExactly(f: Foreign, s: Durable, d: bytes, env: Env, answer: bytes)
    ensures HandleAttest(f, s, d, env) == Ok(answer)
            <==> && |d| == 4
                 && f.attest([Held(s.objects, AsymmetricKey, Id(d, 0)), Held(s.objects, AsymmetricKey, Id(d, 2)),
                              Held(s.objects, OpaqueObject, Id(d, 2))], s.deviceKey, d, env.seed) == Ok(answer)
  {
    if |d| == 4 {
      IdIsDecoded(d, 0);
      IdIsDecoded(d, 2);
      assert d[2..] == d[2..4];
    }
  }

  // ----- reading objects

  lemma OpaqueReadExactly(s: Durable, t: ObjectType, d: bytes, answer: bytes)
    ensures HandleOpaqueRead(s, t, d) == Ok(answer)
            <==> |d| == 2 && ObjectKey(t, Id(d, 0)) in s.objects
                 && s.objects[ObjectKey(t, Id(d, 0))].material == OpaqueBytes(answer)
  {
  }
}
