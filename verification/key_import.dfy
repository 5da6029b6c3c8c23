/** When wrapped imports and changes of an authentication key succeed. */
module KeyImporting {
  import opened Bytes
  import opened Errors
  import opened Capabilities
  import opened Algorithms
  import opened Objects
  import opened Protocol
  import opened Options
  import opened Requests
  import opened Authorization
  import opened Store
  import opened ForeignCode
  import opened Commands
  import opened Discipline
  import opened Entitlement
  import opened KeyMaterial
  import opened KeyCreation
  import WrappedObjects

  // ----- what may come in under a wrap key

  /** A session may take in an object that it could create and that lies below the wrap key's ceiling. */
  ghost predicate MayImport(auth: SessionAuthorization, wrap: ObjectInfo, info: ObjectInfo) {
    && info.id != 0 && info.id != 0xffff && info.domains != 0 && |info.labelBytes| <= 40
    && Within(info.domains, auth.domains)
    && Members(info.capabilities) <= Members(auth.delegated) && Members(info.delegated) <= Members(auth.delegated)
    && Members(info.capabilities) <= Members(wrap.delegated)
  }

  lemma ImportPermitted(auth: SessionAuthorization, wrap: ObjectInfo, info: ObjectInfo)
    requires IMPORT_WRAPPED in Members(auth.capabilities)
    ensures auth.AuthorizeWrappedCreation(info, wrap).Ok? <==> MayImport(auth, wrap, info)
  {
    WrappingExactly(auth, info, wrap);
    CreateExactly(auth, info, IMPORT_WRAPPED);
  }

  /** The form of an import, and the algorithm of the wrap key. */
  predicate ImportForm(c: byte, d: bytes, algorithm: byte) {
    if c == 0x4b then |d| >= 32 && d[2] == 1 && algorithm in {29, 41, 42} else |d| >= 4 && 9 <= algorithm <= 11
  }

  /** The wrap key that a request names first, which the session sees and whose algorithm is enabled. */
  predicate NamesWrapKey(config: DeviceConfig, s: Durable, auth: SessionAuthorization, d: bytes) {
    && |d| >= 2
    && var k := ObjectKey(WrapKey, Id(d, 0));
       Sees(auth, s.objects, k) && AlgorithmEnabled(config, s.options, s.objects[k].info.algorithm)
  }

  /** The library accepts the key: private RSA keys are validated, and public ones checked. */
  predicate KeyStands(lib: KeyLibrary, r: ObjectRecord) {
    && (r.material.PrivateKey? && 9 <= r.info.algorithm <= 11 ==> lib.validateImport(r.info.algorithm, r.material.encoded).Ok?)
    && (r.material.PublicModulus? ==>
          9 <= r.info.algorithm && lib.publicKeyError(r.material.value, 1024 * (r.info.algorithm - 7)).None?)
  }

  function Unwrapped(f: Foreign, c: CommandCode, wrap: ObjectRecord, d: bytes): Result<ObjectRecord> {
    var plaintext :- f.unwrap(c, wrap, false, d);
    WrappedObjects.DecodeWrapped(f.reader, f.keys, plaintext)
  }

  lemma UnwrappedSuits(f: Foreign, c: CommandCode, wrap: ObjectRecord, d: bytes)
    requires Unwrapped(f, c, wrap, d).Ok?
    ensures Suits(Unwrapped(f, c, wrap, d).value)
  {
    var plaintext := f.unwrap(c, wrap, false, d).value;
    DecodedFits(f.reader, f.keys, plaintext);
  }

  lemma DecodedFits(reader: bytes -> Option<WrappedObjects.Value>, lib: KeyLibrary, data: bytes)
    requires WrappedObjects.DecodeWrapped(reader, lib, data).Ok?
    ensures Suits(WrappedObjects.DecodeWrapped(reader, lib, data).value)
  {
    var raw := WrappedObjects.DecodeFields(lib, reader(data).value.items).value;
    FieldsKeepAlgorithm(lib, reader(data).value.items);
    var r := NormalizeInfoLength(raw).value;
    assert WrappedObjects.ValidateWrapped(lib, r).Ok?;
  }

  lemma FieldsKeepAlgorithm(lib: KeyLibrary, items: seq<WrappedObjects.Value>)
    requires WrappedObjects.DecodeFields(lib, items).Ok?
    ensures
      var r := WrappedObjects.DecodeFields(lib, items).value;
      r.material.PrivateKey? ==> r.material.algorithm == r.info.algorithm
  {
  }

  function Marked(r: ObjectRecord): ObjectRecord {
    r.(info := r.info.(origin := SetBit(r.info.origin, 0x10)))
  }

  lemma ImportParts(f: Foreign, config: DeviceConfig, s: Durable, auth: SessionAuthorization, c: CommandCode, d: bytes, env: Env)
    requires c == 0x4b || c == 0x77
    ensures
      HandleImport(f, config, s, auth, c, d, env).Ok?
      <==> && NamesWrapKey(config, s, auth, d)
           && var wrap := s.objects[ObjectKey(WrapKey, Id(d, 0))];
              && ImportForm(c, d, wrap.info.algorithm) && Unwrapped(f, c, wrap, d).Ok?
              && var u := Unwrapped(f, c, wrap, d).value;
                 && auth.AuthorizeWrappedCreation(u.info, wrap.info).Ok?
                 && var id := ResolveId(s.objects, u.info.objectType, u.info.id, env.ids);
                    && id.Ok? && Finish(f, true, Marked(u.(info := u.info.(id := id.value)))).Ok?
  {
    if |d| >= 2 {
      IdIsDecoded(d, 0);
      UsableExactly(config, s, auth, ObjectKey(WrapKey, Id(d, 0)));
    }
  }

  /** A wrapped import succeeds exactly when the wrap key is seen and suits the command, the
      plaintext is a wrapped object that the session may take in, its identifier is free for its
      type, and the library accepts its key. */
  lemma ImportSucceedsExactly(f: Foreign, config: DeviceConfig, s: Durable, auth: SessionAuthorization, c: CommandCode,
                              d: bytes, env: Env)
    requires (c == 0x4b || c == 0x77) && IMPORT_WRAPPED in Members(auth.capabilities)
    ensures
      HandleImport(f, config, s, auth, c, d, env).Ok?
      <==> && NamesWrapKey(config, s, auth, d)
           && var wrap := s.objects[ObjectKey(WrapKey, Id(d, 0))];
              && ImportForm(c, d, wrap.info.algorithm) && Unwrapped(f, c, wrap, d).Ok?
              && var u := Unwrapped(f, c, wrap, d).value;
                 && MayImport(auth, wrap.info, u.info)
                 && u.info.Key() !in s.objects && KeyStands(f.keys, u)
  {
    ImportParts(f, config, s, auth, c, d, env);
    if NamesWrapKey(config, s, auth, d) && Unwrapped(f, c, s.objects[ObjectKey(WrapKey, Id(d, 0))], d).Ok? {
      var wrap := s.objects[ObjectKey(WrapKey, Id(d, 0))];
      UnwrappedSuits(f, c, wrap, d);
      ImportDecided(f, s.objects, auth, wrap.info, Unwrapped(f, c, wrap, d).value, env.ids);
    }
  }

  lemma ImportDecided(f: Foreign, objects: ObjectMap, auth: SessionAuthorization, wrap: ObjectInfo, u: ObjectRecord, draws: seq<u16>)
    requires IMPORT_WRAPPED in Members(auth.capabilities) && Suits(u)
    ensures
      var id := ResolveId(objects, u.info.objectType, u.info.id, draws);
      auth.AuthorizeWrappedCreation(u.info, wrap).Ok? && id.Ok? && Finish(f, true, Marked(u.(info := u.info.(id := id.value)))).Ok?
      <==> MayImport(auth, wrap, u.info) && u.info.Key() !in objects && KeyStands(f.keys, u)
  {
    ImportPermitted(auth, wrap, u.info);
    MarkedSuits(u);
    FinishExactly(f, true, Marked(u));
    assert u.(info := u.info.(id := u.info.id)) == u;
  }

  lemma MarkedSuits(u: ObjectRecord)
    requires Suits(u)
    ensures Suits(Marked(u))
  {
    assert ExpectedInfoLength(Marked(u)) == ExpectedInfoLength(u);
  }

  // ----- RSA-wrapped keys

  /** Key material of an asymmetric key with a PKCS #8 form, or of an AES key of its length. */
  predicate KeyBytes(lib: KeyLibrary, t: byte, a: byte, plaintext: bytes) {
    if t == 8 then 50 <= a <= 52 && |plaintext| == DrawnLength(a)
    else
      && t == 3 && HasKeyPairs(a) && !(62 <= a <= 67) && lib.fromPkcs8(a, plaintext).Some?
      && (9 <= a <= 11 ==> lib.validateImport(a, lib.fromPkcs8(a, plaintext).value).Ok?)
  }

  /** Domains and capabilities at their place in the request, below what the session may hand out and
      the wrap key's ceiling. */
  ghost predicate MayImportKey(auth: SessionAuthorization, wrap: ObjectInfo, d: bytes)
    requires |d| >= 58
  {
    && Id(d, 45) != 0 && Within(Id(d, 45), auth.domains)
    && Members(d[47..55]) <= Members(auth.delegated) && Members(d[47..55]) <= Members(wrap.delegated)
  }

  function KeyRecord(t: ObjectType, h: Header, plan: Plan, m: ObjectMaterial, id: u16): ObjectRecord {
    ObjectRecord(ObjectInfo(h.capabilities, id, plan.length, h.domains, t, h.algorithm, 0, 0x12, TrimLabel(h.labelBytes),
                            NO_CAPABILITIES), m)
  }

  lemma KeyPlan(f: Foreign, t: ObjectType, a: byte, plaintext: bytes)
    requires t.AsymmetricKey? || t.SymmetricKey?
    ensures
      var plan := KeyImportMaterial(f, t, a, plaintext);
      && (plan.Ok? ==> plan.value.material.Ok?)
      && (plan.Ok? && (plan.value.material.value.PrivateKey? && 9 <= a <= 11
                       ==> f.keys.validateImport(a, plan.value.material.value.encoded).Ok?)
          <==> KeyBytes(f.keys, t.Byte(), a, plaintext))
  {
  }

  lemma KeyPlanSuits(f: Foreign, t: ObjectType, h: Header, plaintext: bytes, id: u16)
    requires (t.AsymmetricKey? || t.SymmetricKey?) && KeyImportMaterial(f, t, h.algorithm, plaintext).Ok?
    requires KeyImportMaterial(f, t, h.algorithm, plaintext).value.material.Ok?
    requires id != 0 && id != 0xffff && h.domains != 0 && |h.labelBytes| == 40
    ensures
      var plan := KeyImportMaterial(f, t, h.algorithm, plaintext).value;
      Suits(KeyRecord(t, h, plan, plan.material.value, id)) && !plan.material.value.PublicModulus?
  {
    var plan := KeyImportMaterial(f, t, h.algorithm, plaintext).value;
    var r := KeyRecord(t, h, plan, plan.material.value, id);
    assert ExpectedInfoLength(r) == Ok(r.info.length);
  }

  lemma KeyImportParts(f: Foreign, config: DeviceConfig, s: Durable, auth: SessionAuthorization, d: bytes, env: Env)
    ensures
      HandleImportKey(f, config, s, auth, d, env).Ok?
      <==> && |d| >= 58 && (d[2] == 3 || d[2] == 8)
           && var t, h := TYPES[d[2] - 1], HeaderOf(d[3..56]);
              && AlgorithmEnabled(config, s.options, h.algorithm)
              && NamesWrapKey(config, s, auth, d)
              && var wrap := s.objects[ObjectKey(WrapKey, Id(d, 0))];
                 && 9 <= wrap.info.algorithm <= 11 && f.unwrap(0x75, wrap, s.options.fipsMode != 0, d).Ok?
                 && var plaintext := f.unwrap(0x75, wrap, s.options.fipsMode != 0, d).value;
                    var plan := KeyImportMaterial(f, t, h.algorithm, plaintext);
                    var id := ResolveId(s.objects, t, h.requestedId, env.ids);
                    && plan.Ok? && plan.value.material.Ok? && id.Ok?
                    && var r := KeyRecord(t, h, plan.value, plan.value.material.value, id.value);
                       auth.AuthorizeWrappedCreation(r.info, wrap.info).Ok? && Finish(f, true, r).Ok?
  {
    if |d| >= 58 {
      IdIsDecoded(d, 0);
      TypeExactly(d);
      UsableExactly(config, s, auth, ObjectKey(WrapKey, Id(d, 0)));
      KeyPlans(f);
    }
  }

  lemma KeyPlans(f: Foreign)
    ensures forall t: ObjectType, a: byte, p: bytes {:trigger KeyImportMaterial(f, t, a, p)} ::
              KeyImportMaterial(f, t, a, p).Ok? ==> KeyImportMaterial(f, t, a, p).value.material.Ok?
  {
  }

  /** An RSA-wrapped key comes in exactly when its type, its algorithm and the wrap key suit, the
      library reads its key, and the session and the wrap key allow it. */
  lemma KeyImportSucceedsExactly(f: Foreign, config: DeviceConfig, s: Durable, auth: SessionAuthorization, d: bytes, env: Env)
    requires IMPORT_WRAPPED in Members(auth.capabilities)
    ensures
      HandleImportKey(f, config, s, auth, d, env).Ok?
      <==> && |d| >= 58 && (d[2] == 3 || d[2] == 8)
           && AlgorithmEnabled(config, s.options, d[55])
           && NamesWrapKey(config, s, auth, d)
           && var wrap := s.objects[ObjectKey(WrapKey, Id(d, 0))];
              && 9 <= wrap.info.algorithm <= 11 && f.unwrap(0x75, wrap, s.options.fipsMode != 0, d).Ok?
              && KeyBytes(f.keys, d[2], d[55], f.unwrap(0x75, wrap, s.options.fipsMode != 0, d).value)
              && IdAvailable(s.objects, TYPES[d[2] - 1], Id(d, 3), env.ids)
              && MayImportKey(auth, wrap.info, d)
  {
    KeyImportParts(f, config, s, auth, d, env);
    if |d| >= 58 && (d[2] == 3 || d[2] == 8) {
      ImportedHeader(d);
      var t, h := TYPES[d[2] - 1], HeaderOf(d[3..56]);
      ResolveExactly(s.objects, t, h.requestedId, env.ids);
      if NamesWrapKey(config, s, auth, d) && f.unwrap(0x75, s.objects[ObjectKey(WrapKey, Id(d, 0))], s.options.fipsMode != 0, d).Ok? {
        var wrap := s.objects[ObjectKey(WrapKey, Id(d, 0))];
        var plaintext := f.unwrap(0x75, wrap, s.options.fipsMode != 0, d).value;
        KeyPlan(f, t, h.algorithm, plaintext);
        var id := ResolveId(s.objects, t, h.requestedId, env.ids);
        if id.Ok? && KeyImportMaterial(f, t, h.algorithm, plaintext).Ok? {
          ResolvedIsNew(s.objects, t, h.requestedId, env.ids);
          KeyDecided(f, auth, wrap.info, t, d, plaintext, id.value);
        }
      }
    }
  }

  lemma KeyDecided(f: Foreign, auth: SessionAuthorization, wrap: ObjectInfo, t: ObjectType, d: bytes, plaintext: bytes, id: u16)
    requires |d| >= 58 && (d[2] == 3 || d[2] == 8) && t == TYPES[d[2] - 1] && id != 0 && id != 0xffff
    requires IMPORT_WRAPPED in Members(auth.capabilities)
    requires KeyImportMaterial(f, t, d[55], plaintext).Ok?
    ensures
      var h := HeaderOf(d[3..56]);
      var plan := KeyImportMaterial(f, t, d[55], plaintext).value;
      && plan.material.Ok?
      && var r := KeyRecord(t, h, plan, plan.material.value, id);
         auth.AuthorizeWrappedCreation(r.info, wrap).Ok? && Finish(f, true, r).Ok?
         <==> KeyBytes(f.keys, d[2], d[55], plaintext) && MayImportKey(auth, wrap, d)
  {
    ImportedHeader(d);
    KeyPlan(f, t, d[55], plaintext);
    var h := HeaderOf(d[3..56]);
    var plan := KeyImportMaterial(f, t, d[55], plaintext).value;
    var r := KeyRecord(t, h, plan, plan.material.value, id);
    ImportPermitted(auth, wrap, r.info);
    EmptyWithin(auth.delegated);
    if h.domains != 0 {
      KeyPlanSuits(f, t, h, plaintext, id);
      FinishExactly(f, true, r);
    }
  }

  // ----- changing an authentication key

  /** The key of a session changes exactly to an enabled authentication algorithm and a key of it;
      what is stored then is `ChangedKeyIsSent`. */
  lemma ChangeSucceedsExactly(f: Foreign, config: DeviceConfig, s: Durable, d: bytes)
    requires SoundStore(f.keys, s.objects)
    ensures
      HandleChangeKey(f, config, s, d).Ok?
      <==> && |d| >= 3 && ObjectKey(AuthenticationKey, Id(d, 0)) in s.objects && AlgorithmEnabled(config, s.options, d[2])
           && (if d[2] == 38 then |d| == 3 + 32 else d[2] == 49 && |d| == 3 + 64 && f.keys.validPoint([0x04] + d[3..]))
  {
    if |d| >= 3 {
      IdIsDecoded(d, 0);
      var k := ObjectKey(AuthenticationKey, Id(d, 0));
      if k in s.objects && AuthenticationKeyLength(d[2]) == Some(|d| - 3) && WrappedObjects.ParseAuthentication(f.keys, d[2], d[3..]).Ok? {
        var r := ObjectRecord(s.objects[k].info.(algorithm := d[2], length := |d| - 3 + 8),
                              Authentication(WrappedObjects.ParseAuthentication(f.keys, d[2], d[3..]).value));
        assert ExpectedInfoLength(r) == Ok(r.info.length);
        assert CheckWrite(f.keys, r) == Ok(r);
      }
    }
  }
}
