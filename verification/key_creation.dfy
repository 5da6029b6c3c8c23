/** When a creating command succeeds, said of the request's bytes, the session and the store. */
module KeyCreation {
  import opened Bytes
  import opened Errors
  import opened Capabilities
  import opened Objects
  import opened Protocol
  import opened Options
  import opened Requests
  import opened Authorization
  import opened Store
  import opened ForeignCode
  import opened Commands
  import opened Entitlement
  import opened KeyMaterial
  import opened Discipline

  // ----- what can be made of the request

  predicate HasKeyPairs(a: byte) {
    9 <= a <= 18 || a == 46 || a == 47 || 56 <= a <= 67
  }

  /** The library makes a key pair, or takes the one that was sent; RSA keys that were sent are
      validated. */
  predicate PairMade(f: Foreign, generated: bool, a: byte, given: bytes, seed: bytes) {
    && HasKeyPairs(a)
    && if generated then f.keys.generate(a, seed).Some?
       else f.keys.accept(a, given).Some? && (9 <= a <= 11 ==> f.keys.validateImport(a, f.keys.accept(a, given).value).Ok?)
  }

  /** The algorithms of each type, with the number of key bytes to send. */
  predicate KeyMade(f: Foreign, made: Creation, a: byte, given: bytes, seed: bytes) {
    match made.objectType
    case AuthenticationKey => if a == 38 then |given| == 32 else a == 49 && |given| == 64 && f.keys.validPoint([0x04] + given)
    case AsymmetricKey => PairMade(f, made.generated, a, given, seed)
    case WrapKey =>
      if 9 <= a <= 11 then PairMade(f, made.generated, a, given, seed)
      else a in {29, 41, 42} && (made.generated || |given| == DrawnLength(a))
    case HmacKey => 19 <= a <= 22 && (made.generated || 1 <= |given| <= 128)
    case SymmetricKey => 50 <= a <= 52 && (made.generated || |given| == DrawnLength(a))
    case OtpAeadKey => a in {37, 39, 40} && (made.generated || |given| == DrawnLength(a))
    case PublicWrapKey =>
      && 9 <= a <= 11 && |given| == 128 * (a - 7)
      && f.keys.publicKeyError(given, 1024 * (a - 7)).None?
    case Template => a == 36 && 1 <= |given| <= 0xffff
    case OpaqueObject => false
  }

  predicate Makes(f: Foreign, made: Creation, a: byte, given: bytes, seed: bytes) {
    KeyMade(f, made, a, given, seed) && (made.generated ==> given == [])
  }

  /** The identifier asked for is free for its type, or one is drawn that nothing has. */
  predicate IdAvailable(objects: ObjectMap, t: ObjectType, requested: u16, draws: seq<u16>) {
    if requested == 0 then exists i :: 0 <= i < |draws| && IdFree(objects, draws[i])
    else requested != 0xffff && ObjectKey(t, requested) !in objects
  }

  /** Domains and capabilities that the session may hand out. */
  ghost predicate MayCreate(auth: SessionAuthorization, made: Creation, d: bytes)
    requires |d| >= 53 + made.middle
  {
    && Id(d, 42) != 0 && Within(Id(d, 42), auth.domains)
    && Members(d[44..52]) <= Members(auth.delegated)
    && (made.middle == 8 ==> Members(d[53..61]) <= Members(auth.delegated))
  }

  // ----- identifiers

  lemma {:induction false} DrawnExactly(objects: ObjectMap, draws: seq<u16>)
    ensures FirstAvailable(objects, draws).Ok? <==> exists i :: 0 <= i < |draws| && IdFree(objects, draws[i])
  {
    if draws != [] && !IdFree(objects, draws[0]) {
      DrawnExactly(objects, draws[1..]);
      if i :| 0 <= i < |draws| && IdFree(objects, draws[i]) {
        assert draws[1..][i - 1] == draws[i];
      }
    }
  }

  lemma ResolveExactly(objects: ObjectMap, t: ObjectType, requested: u16, draws: seq<u16>)
    ensures ResolveId(objects, t, requested, draws).Ok? <==> IdAvailable(objects, t, requested, draws)
  {
    DrawnExactly(objects, draws);
  }

  // ----- plans

  predicate Planned(f: Foreign, enabled: bool, recipe: Recipe, q: ObjectRequest, seed: bytes) {
    var plan := PlanFor(f, enabled, recipe, q, seed);
    plan.Ok? && plan.value.material.Ok?
  }

  function RecordFor(f: Foreign, enabled: bool, recipe: Recipe, q: ObjectRequest, seed: bytes, id: u16): ObjectRecord
    requires Planned(f, enabled, recipe, q, seed)
  {
    var plan := PlanFor(f, enabled, recipe, q, seed).value;
    ObjectRecord(ObjectInfo(q.header.capabilities, id, plan.length, q.header.domains, recipe.objectType, q.header.algorithm, 0,
                            if recipe.generate then 1 else 2, TrimLabel(q.header.labelBytes), q.delegated),
                 plan.material.value)
  }

  /** A recipe is the one for what its command creates. */
  predicate Serves(recipe: Recipe, made: Creation) {
    && recipe.objectType == made.objectType && recipe.generate == made.generated
    && ShapeMiddle(recipe.shape) == made.middle
    && (recipe.imported ==> !recipe.generate)
    && (!recipe.generate && (recipe.objectType.AsymmetricKey? || recipe.objectType.WrapKey?) ==> recipe.imported)
    && (recipe.generate ==> recipe.objectType in {AsymmetricKey, WrapKey, HmacKey, SymmetricKey, OtpAeadKey})
  }

  lemma RecipesServe(c: CommandCode)
    ensures GroupOf(c).Create? <==> CreationOf(c).Some?
    ensures GroupOf(c).Create? ==> Serves(GroupOf(c).recipe, CreationOf(c).value)
  {
    CreationsExactly(c);
    if GroupOf(c).Create? && GroupOf(c).recipe.generate {
      DrawingTypes(c);
    }
  }

  /** What the last checks still refuse of a planned record. */
  predicate Passes(f: Foreign, imported: bool, r: ObjectRecord) {
    && (imported && r.material.PrivateKey? && 9 <= r.info.algorithm <= 11 ==>
          f.keys.validateImport(r.info.algorithm, r.material.encoded).Ok?)
    && (r.material.PublicModulus? ==>
          9 <= r.info.algorithm && f.keys.publicKeyError(r.material.value, 1024 * (r.info.algorithm - 7)).None?)
  }

  /** A record whose material suits its type and whose length field is right. */
  predicate Suits(r: ObjectRecord) {
    && Validate(r).Ok?
    && (r.material.PrivateKey? ==> r.material.algorithm == r.info.algorithm && r.info.HoldsPrivateKey())
    && (r.material.Secret? ==> !r.info.HoldsPrivateKey())
    && (r.material.PublicModulus? <==> r.info.objectType.PublicWrapKey?)
    && (r.info.objectType.PublicWrapKey? ==> 9 <= r.info.algorithm <= 11)
  }

  lemma FinishExactly(f: Foreign, imported: bool, r: ObjectRecord)
    requires Suits(r)
    ensures Finish(f, imported, r).Ok? <==> Passes(f, imported, r)
  {
  }

  lemma PlannedSuits(f: Foreign, enabled: bool, recipe: Recipe, q: ObjectRequest, seed: bytes, id: u16, made: Creation)
    requires f.Lawful() && Serves(recipe, made) && Planned(f, enabled, recipe, q, seed) && |q.header.labelBytes| == 40
    requires id != 0 && id != 0xffff && q.header.domains != 0
    ensures Suits(RecordFor(f, enabled, recipe, q, seed, id))
  {
    var r := RecordFor(f, enabled, recipe, q, seed, id);
    assert ExpectedInfoLength(r) == Ok(r.info.length);
  }

  lemma PlannedPasses(f: Foreign, enabled: bool, recipe: Recipe, q: ObjectRequest, seed: bytes, id: u16, made: Creation)
    requires Serves(recipe, made)
    ensures
      && Planned(f, enabled, recipe, q, seed) && Passes(f, recipe.imported, RecordFor(f, enabled, recipe, q, seed, id))
      <==> enabled && Makes(f, made, q.header.algorithm, q.material, seed)
  {
  }

  // ----- creation

  lemma CreateParts(f: Foreign, config: DeviceConfig, s: Durable, auth: SessionAuthorization, recipe: Recipe, d: bytes, env: Env)
    requires DecodeObject(recipe.shape, d).Ok?
    ensures
      var q := DecodeObject(recipe.shape, d).value;
      var enabled := AlgorithmEnabled(config, s.options, q.header.algorithm);
      var id := ResolveId(s.objects, recipe.objectType, q.header.requestedId, env.ids);
      HandleCreate(f, config, s, auth, recipe, d, env).Ok?
      <==> && Planned(f, enabled, recipe, q, env.seed) && id.Ok?
           && var r := RecordFor(f, enabled, recipe, q, env.seed, id.value);
              auth.AuthorizeCreate(r.info, recipe.capability).Ok? && Finish(f, recipe.imported, r).Ok?
  {
  }

  lemma RequestHeader(shape: Shape, d: bytes)
    ensures DecodeObject(shape, d).Ok? <==> |d| >= 53 + ShapeMiddle(shape)
    ensures DecodeObject(shape, d).Ok? ==>
              var q := DecodeObject(shape, d).value;
              && q.header == Header(Id(d, 0), d[2..42], Id(d, 42), d[44..52], d[52])
              && q.material == d[53 + ShapeMiddle(shape)..]
              && q.delegated == if ShapeMiddle(shape) == 8 then d[53..61] else NO_CAPABILITIES
  {
    if |d| >= 53 {
      IdIsDecoded(d, 0);
      IdIsDecoded(d, 42);
    }
  }

  lemma EmptyWithin(s: CapabilitySet)
    ensures Members(NO_CAPABILITIES) <= Members(s)
  {
    NothingContained();
  }

  lemma NothingContained()
    ensures Members(NO_CAPABILITIES) == {}
  {
    forall c: Capability | true
      ensures !Contains(NO_CAPABILITIES, c)
    {
    }
  }

  lemma PermittedExactly(auth: SessionAuthorization, made: Creation, c: Capability, d: bytes, info: ObjectInfo)
    requires |d| >= 53 + made.middle && c in Members(auth.capabilities)
    requires info.id != 0 && info.id != 0xffff && |info.labelBytes| <= 40
    requires info.domains == Id(d, 42) && info.capabilities == d[44..52]
    requires info.delegated == if made.middle == 8 then d[53..61] else NO_CAPABILITIES
    ensures auth.AuthorizeCreate(info, c).Ok? <==> MayCreate(auth, made, d)
  {
    CreateExactly(auth, info, c);
    EmptyWithin(auth.delegated);
  }

  lemma RecipesNeed(auth: SessionAuthorization, c: CommandCode)
    requires GroupOf(c).Create?
    ensures GroupOf(c).recipe.capability in Members(auth.capabilities) <==> Capable(auth, c)
  {
  }

  /** Creation succeeds exactly when the request is long enough, the algorithm is enabled and suits
      the command and the bytes sent, the identifier is to be had, and the session may hand out the
      domains and capabilities asked for. */
  lemma CreateSucceedsExactly(f: Foreign, config: DeviceConfig, s: Durable, auth: SessionAuthorization, c: CommandCode,
                              d: bytes, env: Env)
    requires f.Lawful() && GroupOf(c).Create? && Capable(auth, c)
    ensures CreationOf(c).Some?
    ensures
      var made := CreationOf(c).value;
      HandleCreate(f, config, s, auth, GroupOf(c).recipe, d, env).Ok?
      <==> && |d| >= 53 + made.middle
           && AlgorithmEnabled(config, s.options, d[52])
           && Makes(f, made, d[52], d[53 + made.middle..], env.seed)
           && IdAvailable(s.objects, made.objectType, Id(d, 0), env.ids)
           && MayCreate(auth, made, d)
  {
    RecipesServe(c);
    RecipesNeed(auth, c);
    var recipe, made := GroupOf(c).recipe, CreationOf(c).value;
    RequestHeader(recipe.shape, d);
    if DecodeObject(recipe.shape, d).Ok? {
      var q := DecodeObject(recipe.shape, d).value;
      ResolveExactly(s.objects, recipe.objectType, q.header.requestedId, env.ids);
      CreateParts(f, config, s, auth, recipe, d, env);
      var id := ResolveId(s.objects, recipe.objectType, q.header.requestedId, env.ids);
      if id.Ok? {
        ResolvedIsNew(s.objects, recipe.objectType, q.header.requestedId, env.ids);
        CreateDecided(f, AlgorithmEnabled(config, s.options, d[52]), auth, recipe, made, d, env.seed, id.value);
      }
    }
  }

  lemma CreateDecided(f: Foreign, enabled: bool, auth: SessionAuthorization, recipe: Recipe, made: Creation, d: bytes,
                      seed: bytes, id: u16)
    requires f.Lawful() && Serves(recipe, made) && recipe.capability in Members(auth.capabilities)
    requires DecodeObject(recipe.shape, d).Ok? && |d| >= 53 + made.middle && id != 0 && id != 0xffff
    ensures
      var q := DecodeObject(recipe.shape, d).value;
      && Planned(f, enabled, recipe, q, seed)
      && auth.AuthorizeCreate(RecordFor(f, enabled, recipe, q, seed, id).info, recipe.capability).Ok?
      && Finish(f, recipe.imported, RecordFor(f, enabled, recipe, q, seed, id)).Ok?
      <==> enabled && Makes(f, made, d[52], d[53 + made.middle..], seed) && MayCreate(auth, made, d)
  {
    RequestHeader(recipe.shape, d);
    var q := DecodeObject(recipe.shape, d).value;
    PlannedPasses(f, enabled, recipe, q, seed, id, made);
    if Planned(f, enabled, recipe, q, seed) {
      var r := RecordFor(f, enabled, recipe, q, seed, id);
      PermittedExactly(auth, made, recipe.capability, d, r.info);
      if q.header.domains != 0 {
        PlannedSuits(f, enabled, recipe, q, seed, id, made);
        FinishExactly(f, recipe.imported, r);
      }
    }
  }

  // ----- opaque objects

  const OPAQUE := Creation(OpaqueObject, false, 0)

  /** A replacement must repeat the metadata of the object it replaces. */
  predicate SameMetadata(info: ObjectInfo, d: bytes)
    requires |d| >= 53
  {
    && info.capabilities == d[44..52] && info.domains == Id(d, 42) && info.algorithm == d[52]
    && info.labelBytes == TrimLabel(d[2..42])
  }

  /** Bytes that an opaque object may have: none only as plain data, and no more than a length field tells. */
  predicate OpaqueFits(config: DeviceConfig, o: DeviceOptions, d: bytes)
    requires |d| >= 53
  {
    AlgorithmEnabled(config, o, d[52]) && (d[52] == 30 || |d| > 53) && |d| <= 53 + 0xffff
  }

  function NewOpaque(d: bytes, id: u16): ObjectRecord
    requires 53 <= |d| <= 53 + 0xffff
  {
    ObjectRecord(ObjectInfo(d[44..52], id, |d| - 53, Id(d, 42), OpaqueObject, d[52], 0, 2, TrimLabel(d[2..42]), NO_CAPABILITIES),
                 OpaqueBytes(d[53..]))
  }

  lemma OpaquePasses(f: Foreign, r: ObjectRecord)
    requires r.info.Validate().Ok? && r.info.objectType.OpaqueObject? && r.material.OpaqueBytes?
    requires r.info.length == |r.material.value|
    ensures CheckWrite(f.keys, r) == Ok(r) && Finish(f, false, r) == Ok(r)
  {
  }

  /** Replacing keeps everything but bytes and length. */
  lemma OpaqueReplacedExactly(f: Foreign, config: DeviceConfig, s: Durable, auth: SessionAuthorization, d: bytes, env: Env)
    requires SoundStore(f.keys, s.objects) && |d| >= 53 && Id(d, 0) != 0 && ObjectKey(OpaqueObject, Id(d, 0)) in s.objects
    ensures
      var old_ := s.objects[ObjectKey(OpaqueObject, Id(d, 0))];
      if OpaqueFits(config, s.options, d) && SameMetadata(old_.info, d)
      then HandleWriteOpaque(f, config, s, auth, d, env)
           == Ok(Done(d[..2], WriteObject(ObjectRecord(old_.info.(length := |d| - 53), OpaqueBytes(d[53..])))))
      else HandleWriteOpaque(f, config, s, auth, d, env).Err?
  {
    RequestHeader(PlainShape, d);
    IdIsDecoded(d, 0);
    DecodeU16Inverse(d[..2]);
    var old_ := s.objects[ObjectKey(OpaqueObject, Id(d, 0))];
    if OpaqueFits(config, s.options, d) && SameMetadata(old_.info, d) {
      OpaquePasses(f, ObjectRecord(old_.info.(length := |d| - 53), OpaqueBytes(d[53..])));
    }
  }

  /** A new opaque object is stored as requested, when the session may create it. */
  lemma OpaqueCreatedExactly(f: Foreign, config: DeviceConfig, s: Durable, auth: SessionAuthorization, d: bytes, env: Env)
    requires PUT_OPAQUE in Members(auth.capabilities) && |d| >= 53
    requires Id(d, 0) == 0 || ObjectKey(OpaqueObject, Id(d, 0)) !in s.objects
    ensures
      var id := ResolveId(s.objects, OpaqueObject, Id(d, 0), env.ids);
      if OpaqueFits(config, s.options, d) && id.Ok? && MayCreate(auth, OPAQUE, d)
      then HandleWriteOpaque(f, config, s, auth, d, env) == Ok(Done(EncodeU16(id.value), WriteObject(NewOpaque(d, id.value))))
      else HandleWriteOpaque(f, config, s, auth, d, env).Err?
  {
    RequestHeader(PlainShape, d);
    var id := ResolveId(s.objects, OpaqueObject, Id(d, 0), env.ids);
    if OpaqueFits(config, s.options, d) && id.Ok? {
      ResolvedIsNew(s.objects, OpaqueObject, Id(d, 0), env.ids);
      var r := NewOpaque(d, id.value);
      PermittedExactly(auth, OPAQUE, PUT_OPAQUE, d, r.info);
      if MayCreate(auth, OPAQUE, d) {
        OpaquePasses(f, r);
      }
    }
  }
}
