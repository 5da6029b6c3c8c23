/** The keys that commands store: the bytes sent, what was drawn, or what was unwrapped. */
module KeyMaterial {
  import opened Bytes
  import opened Errors
  import opened Capabilities
  import opened Algorithms
  import opened Frames
  import opened Objects
  import opened Protocol
  import opened Options
  import opened Requests
  import opened Authorization
  import opened Store
  import opened ForeignCode
  import opened Commands
  import opened Discipline
  import opened Entitlement
  import Volatile
  import WrappedObjects

  // ----- which command creates what

  /** What a creating command makes, and how long the part between header and material is. */
  datatype Creation = Creation(objectType: ObjectType, generated: bool, middle: nat)

  function CreationOf(c: byte): Option<Creation> {
    match c
    case 0x44 /* PutAuthenticationKey */ => Some(Creation(AuthenticationKey, false, 8))
    case 0x45 /* PutAsymmetricKey */ => Some(Creation(AsymmetricKey, false, 0))
    case 0x46 /* GenerateAsymmetricKey */ => Some(Creation(AsymmetricKey, true, 0))
    case 0x4c /* PutWrapKey */ => Some(Creation(WrapKey, false, 8))
    case 0x52 /* PutHmacKey */ => Some(Creation(HmacKey, false, 0))
    case 0x5a /* GenerateHmacKey */ => Some(Creation(HmacKey, true, 0))
    case 0x5b /* GenerateWrapKey */ => Some(Creation(WrapKey, true, 8))
    case 0x5e /* PutTemplate */ => Some(Creation(Template, false, 0))
    case 0x65 /* PutOtpAeadKey */ => Some(Creation(OtpAeadKey, false, 4))
    case 0x66 /* GenerateOtpAeadKey */ => Some(Creation(OtpAeadKey, true, 4))
    case 0x6d /* PutSymmetricKey */ => Some(Creation(SymmetricKey, false, 0))
    case 0x6e /* GenerateSymmetricKey */ => Some(Creation(SymmetricKey, true, 0))
    case 0x73 /* PutPublicWrapKey */ => Some(Creation(PublicWrapKey, false, 8))
    case _ => None
  }

  function ShapeMiddle(shape: Shape): nat {
    match shape case PlainShape => 0 case DelegatedShape => 8 case OtpShape => 4
  }

  lemma CreationsExactly(c: CommandCode)
    ensures GroupOf(c).Create? <==> CreationOf(c).Some?
    ensures GroupOf(c).Create? ==>
              && GroupOf(c).recipe.objectType == CreationOf(c).value.objectType
              && GroupOf(c).recipe.generate == CreationOf(c).value.generated
              && ShapeMiddle(GroupOf(c).recipe.shape) == CreationOf(c).value.middle
              && (!GroupOf(c).recipe.generate && (GroupOf(c).recipe.objectType.AsymmetricKey? || GroupOf(c).recipe.objectType.WrapKey?)
                  ==> GroupOf(c).recipe.imported)
              && (GroupOf(c).recipe.imported ==> !GroupOf(c).recipe.generate)
  {
  }

  // ----- the material

  /** The bytes of a key that is drawn, for algorithms whose keys are plain bytes. */
  function DrawnLength(a: byte): nat {
    match a
    case 19 => 20
    case 20 => 32
    case 21 => 48
    case 22 => 64
    case 29 => 16
    case 37 => 16
    case 39 => 24
    case 40 => 32
    case 41 => 24
    case 42 => 32
    case 50 => 16
    case 51 => 24
    case 52 => 32
    case _ => 0
  }

  /** A private key that the library accepts from bytes, RSA keys after import validation. */
  predicate Accepted(lib: KeyLibrary, a: byte, given: bytes, m: ObjectMaterial) {
    var k := lib.accept(a, given);
    && k.Some?
    && (if 9 <= a <= 11
        then lib.validateImport(a, k.value).Ok? && m == PrivateKey(a, lib.validateImport(a, k.value).value)
        else m == PrivateKey(a, k.value))
  }

  /** Material that is the request's own bytes. */
  predicate Sent(lib: KeyLibrary, t: ObjectType, a: byte, nonceId: bytes, given: bytes, m: ObjectMaterial) {
    match t
    case AuthenticationKey =>
      if a == 38 then |given| == 32 && m == Authentication(SymmetricKeys(given))
      else a == 49 && |given| == 64 && m == Authentication(HostPublicKey(given))
    case AsymmetricKey => Accepted(lib, a, given, m)
    case WrapKey => if 9 <= a <= 11 then Accepted(lib, a, given, m) else m == Secret(given)
    case HmacKey => 1 <= |given| <= 128 && m == Secret(given)
    case SymmetricKey => m == Secret(given)
    case PublicWrapKey => m == PublicModulus(given)
    case OtpAeadKey => m == OtpAead(nonceId, given)
    case Template => m == OpaqueBytes(given)
    case OpaqueObject => false
  }

  /** Material that was drawn, of the algorithm's length. */
  predicate Drawn(f: Foreign, t: ObjectType, a: byte, nonceId: bytes, seed: bytes, m: ObjectMaterial) {
    var n := DrawnLength(a);
    match t
    case AsymmetricKey => f.keys.generate(a, seed).Some? && m == PrivateKey(a, f.keys.generate(a, seed).value)
    case WrapKey =>
      if 9 <= a <= 11 then f.keys.generate(a, seed).Some? && m == PrivateKey(a, f.keys.generate(a, seed).value)
      else n > 0 && m == Secret(f.random(seed, n))
    case HmacKey => n > 0 && m == Secret(f.random(seed, n))
    case SymmetricKey => n > 0 && m == Secret(f.random(seed, n))
    case OtpAeadKey => n > 0 && m == OtpAead(nonceId, f.random(seed, n))
    case _ => false
  }

  /** A material before and after import validation. */
  predicate Validated(lib: KeyLibrary, imported: bool, a: byte, before: ObjectMaterial, after: ObjectMaterial) {
    if imported && before.PrivateKey? && 9 <= a <= 11
    then lib.validateImport(a, before.encoded).Ok? && after == PrivateKey(a, lib.validateImport(a, before.encoded).value)
    else after == before
  }

  lemma FinishValidates(f: Foreign, imported: bool, r: ObjectRecord)
    requires Finish(f, imported, r).Ok? && (r.material.Secret? ==> !r.info.HoldsPrivateKey())
    requires r.material.PrivateKey? ==> r.material.algorithm == r.info.algorithm
    ensures Validated(f.keys, imported, r.info.algorithm, r.material, Finish(f, imported, r).value.material)
    ensures Finish(f, imported, r).value.info == r.info
  {
  }

  lemma PlanSent(f: Foreign, enabled: bool, recipe: Recipe, q: ObjectRequest, seed: bytes)
    requires !recipe.generate && PlanFor(f, enabled, recipe, q, seed).Ok? && PlanFor(f, enabled, recipe, q, seed).value.material.Ok?
    ensures
      var a, m := q.header.algorithm, PlanFor(f, enabled, recipe, q, seed).value.material.value;
      if m.PrivateKey? then
        && (recipe.objectType.AsymmetricKey? || (recipe.objectType.WrapKey? && 9 <= a <= 11))
        && f.keys.accept(a, q.material).Some? && m == PrivateKey(a, f.keys.accept(a, q.material).value)
      else Sent(f.keys, recipe.objectType, a, q.nonceId, q.material, m)
           && (m.Secret? ==> !recipe.objectType.AsymmetricKey? && !(recipe.objectType.WrapKey? && 9 <= a <= 11))
  {
  }

  lemma PlanDrawn(f: Foreign, enabled: bool, recipe: Recipe, q: ObjectRequest, seed: bytes)
    requires recipe.generate && recipe.objectType in {AsymmetricKey, WrapKey, HmacKey, SymmetricKey, OtpAeadKey}
    requires PlanFor(f, enabled, recipe, q, seed).Ok? && PlanFor(f, enabled, recipe, q, seed).value.material.Ok?
    ensures
      var a, m := q.header.algorithm, PlanFor(f, enabled, recipe, q, seed).value.material.value;
      && q.material == [] && Drawn(f, recipe.objectType, a, q.nonceId, seed, m)
      && (m.Secret? ==> !recipe.objectType.AsymmetricKey? && !(recipe.objectType.WrapKey? && 9 <= a <= 11))
      && (m.PrivateKey? ==> m.algorithm == a)
  {
  }

  /** The request cut into its parts. */
  lemma RequestParts(shape: Shape, d: bytes)
    requires DecodeObject(shape, d).Ok?
    ensures
      var q := DecodeObject(shape, d).value;
      var m := 53 + ShapeMiddle(shape);
      && |d| >= m && q.header.algorithm == d[52] && q.material == d[m..]
      && (shape.OtpShape? ==> q.nonceId == d[53..57])
  {
  }

  // ----- creating commands

  lemma CreateStores(f: Foreign, config: DeviceConfig, s: Durable, auth: SessionAuthorization, recipe: Recipe, d: bytes, env: Env)
    requires HandleCreate(f, config, s, auth, recipe, d, env).Ok?
    ensures
      var effect := HandleCreate(f, config, s, auth, recipe, d, env).value.effect;
      && effect.WriteObject? && DecodeObject(recipe.shape, d).Ok?
      && var q := DecodeObject(recipe.shape, d).value;
         var plan := PlanFor(f, AlgorithmEnabled(config, s.options, q.header.algorithm), recipe, q, env.seed);
         && plan.Ok? && plan.value.material.Ok?
         && exists info: ObjectInfo ::
              && info.objectType == recipe.objectType && info.algorithm == q.header.algorithm
              && Finish(f, recipe.imported, ObjectRecord(info, plan.value.material.value)) == Ok(effect.record)
  {
    var q := DecodeObject(recipe.shape, d).value;
    var h := q.header;
    var plan := PlanFor(f, AlgorithmEnabled(config, s.options, h.algorithm), recipe, q, env.seed).value;
    var id := ResolveId(s.objects, recipe.objectType, h.requestedId, env.ids).value;
    var info := ObjectInfo(h.capabilities, id, plan.length, h.domains, recipe.objectType, h.algorithm, 0,
                           if recipe.generate then 1 else 2, TrimLabel(h.labelBytes), q.delegated);
    assert Finish(f, recipe.imported, ObjectRecord(info, plan.material.value)).Ok?;
  }

  /** What a creating command stores, said of the request's bytes: the key after header and middle
      part, or a drawn one when there is nothing after them. */
  predicate StoresKey(f: Foreign, made: Creation, d: bytes, seed: bytes, m: ObjectMaterial) {
    && |d| >= 53 + made.middle
    && var nonceId := if made.middle == 4 then d[53..57] else [];
       if made.generated then |d| == 53 + made.middle && Drawn(f, made.objectType, d[52], nonceId, seed, m)
       else Sent(f.keys, made.objectType, d[52], nonceId, d[53 + made.middle..], m)
  }

  predicate StoresAs(f: Foreign, made: Creation, d: bytes, seed: bytes, r: ObjectRecord) {
    && StoresKey(f, made, d, seed, r.material)
    && r.info.objectType == made.objectType && r.info.algorithm == d[52]
  }

  lemma HandleStores(f: Foreign, config: DeviceConfig, s: Durable, auth: SessionAuthorization, c: CommandCode, d: bytes, env: Env)
    requires GroupOf(c).Create? && HandleCreate(f, config, s, auth, GroupOf(c).recipe, d, env).Ok?
    ensures
      var effect := HandleCreate(f, config, s, auth, GroupOf(c).recipe, d, env).value.effect;
      && effect.WriteObject? && CreationOf(c).Some?
      && StoresKey(f, CreationOf(c).value, d, env.seed, effect.record.material)
  {
    var recipe := GroupOf(c).recipe;
    CreationsExactly(c);
    CreateStores(f, config, s, auth, recipe, d, env);
    var effect := HandleCreate(f, config, s, auth, recipe, d, env).value.effect;
    RequestParts(recipe.shape, d);
    var q := DecodeObject(recipe.shape, d).value;
    var enabled := AlgorithmEnabled(config, s.options, q.header.algorithm);
    var m := PlanFor(f, enabled, recipe, q, env.seed).value.material.value;
    var info: ObjectInfo :| info.objectType == recipe.objectType && info.algorithm == q.header.algorithm
                            && Finish(f, recipe.imported, ObjectRecord(info, m)) == Ok(effect.record);
    if recipe.generate {
      DrawingTypes(c);
      PlanDrawn(f, enabled, recipe, q, env.seed);
    } else {
      PlanSent(f, enabled, recipe, q, env.seed);
    }
    FinishValidates(f, recipe.imported, ObjectRecord(info, m));
    NonceId(recipe.shape, d);
  }

  lemma NonceId(shape: Shape, d: bytes)
    requires DecodeObject(shape, d).Ok?
    ensures DecodeObject(shape, d).value.nonceId == if ShapeMiddle(shape) == 4 then d[53..57] else []
  {
  }

  lemma DrawingTypes(c: CommandCode)
    requires GroupOf(c).Create? && GroupOf(c).recipe.generate
    ensures GroupOf(c).recipe.objectType in {AsymmetricKey, WrapKey, HmacKey, SymmetricKey, OtpAeadKey}
  {
  }

  lemma CreateHandled(f: Foreign, config: DeviceConfig, s: Durable, v: Option<Volatile.Store>, auth: SessionAuthorization,
                      c: CommandCode, d: bytes, env: Env)
    requires GroupOf(c).Create?
    ensures Handle(f, config, s, v, auth, c, d, env) == HandleCreate(f, config, s, auth, GroupOf(c).recipe, d, env)
  {
  }

  /** Every creating command that succeeds stores the key it was sent, or one that was drawn. */
  lemma CreatedKeyIsSentOrDrawn(f: Foreign, config: DeviceConfig, s: Durable, v: Option<Volatile.Store>,
                                auth: SessionAuthorization, request: Frame, env: Env)
    requires IsCommand(request.command) && CreationOf(request.command).Some?
    requires ExecuteResult(f, config, s, v, auth, request, env).Ok?
    ensures
      var effect := ExecuteResult(f, config, s, v, auth, request, env).value.effect;
      && effect.WriteObject?
      && StoresAs(f, CreationOf(request.command).value, request.data, env.seed, effect.record)
  {
    CreationsExactly(request.command);
    RunIsAuthorized(f, config, s, v, auth, request, env);
    CreateHandled(f, config, s, v, auth, request.command, request.data, env);
    HandleStores(f, config, s, auth, request.command, request.data, env);
    StoredAlgorithm(f, config, s, auth, GroupOf(request.command).recipe, request.data, env);
  }

  lemma StoredAlgorithm(f: Foreign, config: DeviceConfig, s: Durable, auth: SessionAuthorization, recipe: Recipe, d: bytes, env: Env)
    requires HandleCreate(f, config, s, auth, recipe, d, env).Ok?
    ensures
      var effect := HandleCreate(f, config, s, auth, recipe, d, env).value.effect;
      && effect.WriteObject? && |d| >= 53
      && effect.record.info.algorithm == d[52] && effect.record.info.objectType == recipe.objectType
  {
    CreateStores(f, config, s, auth, recipe, d, env);
    var q := DecodeObject(recipe.shape, d).value;
    var effect := HandleCreate(f, config, s, auth, recipe, d, env).value.effect;
    var m := PlanFor(f, AlgorithmEnabled(config, s.options, q.header.algorithm), recipe, q, env.seed).value.material.value;
    var info: ObjectInfo :| info.objectType == recipe.objectType && info.algorithm == q.header.algorithm
                            && Finish(f, recipe.imported, ObjectRecord(info, m)) == Ok(effect.record);
    FinishKeepsInfo(f, recipe.imported, ObjectRecord(info, m));
  }

  lemma FinishKeepsInfo(f: Foreign, imported: bool, r: ObjectRecord)
    requires Finish(f, imported, r).Ok?
    ensures Finish(f, imported, r).value.info == r.info
  {
  }

  // ----- imports

  /** A wrapped import stores what was unwrapped: the record that the plaintext encodes, under a
      resolved identifier and with its origin marked as imported. */
  lemma ImportStores(f: Foreign, config: DeviceConfig, s: Durable, auth: SessionAuthorization, c: CommandCode, d: bytes, env: Env)
    requires HandleImport(f, config, s, auth, c, d, env).Ok? && f.Lawful()
    ensures
      var done := HandleImport(f, config, s, auth, c, d, env).value;
      && |d| >= 2 && done.effect.WriteObject?
      && var wrap := ObjectKey(WrapKey, Id(d, 0));
         && wrap in s.objects && f.unwrap(c, s.objects[wrap], false, d).Ok?
         && var u := WrappedObjects.DecodeWrapped(f.reader, f.keys, f.unwrap(c, s.objects[wrap], false, d).value);
            && u.Ok?
            && var r := done.effect.record;
               && ResolveId(s.objects, u.value.info.objectType, u.value.info.id, env.ids) == Ok(r.info.id)
               && r.info == u.value.info.(id := r.info.id, origin := SetBit(u.value.info.origin, 0x10))
               && Validated(f.keys, true, r.info.algorithm, u.value.material, r.material)
               && done.data == [r.info.objectType.Byte()] + EncodeU16(r.info.id)
  {
    IdIsDecoded(d, 0);
    var wrap := Usable(config, s, auth, ObjectKey(WrapKey, DecodeWrapId(c, d).value)).value;
    var plaintext := f.unwrap(c, wrap, false, d).value;
    var u := WrappedObjects.DecodeWrapped(f.reader, f.keys, plaintext).value;
    var id := ResolveId(s.objects, u.info.objectType, u.info.id, env.ids).value;
    UnwrappedSettles(f, plaintext, id);
    FinishValidates(f, true, u.(info := u.info.(id := id, origin := SetBit(u.info.origin, 0x10))));
  }

  /** An RSA-wrapped key import stores the unwrapped key under the request's metadata. */
  lemma KeyImportStores(f: Foreign, config: DeviceConfig, s: Durable, auth: SessionAuthorization, d: bytes, env: Env)
    requires HandleImportKey(f, config, s, auth, d, env).Ok? && f.Lawful()
    ensures
      var done := HandleImportKey(f, config, s, auth, d, env).value;
      && |d| >= 58 && Typed(d) && done.effect.WriteObject?
      && var wrap := ObjectKey(WrapKey, Id(d, 0));
         && wrap in s.objects && f.unwrap(0x75, s.objects[wrap], s.options.fipsMode != OFF, d).Ok?
         && ImportedAs(f, d, f.unwrap(0x75, s.objects[wrap], s.options.fipsMode != OFF, d).value, done.effect.record)
         && done.data == [d[2]] + EncodeU16(done.effect.record.info.id)
  {
    IdIsDecoded(d, 0);
    TypeExactly(d);
    var info, m, plaintext := KeyImportParts(f, config, s, auth, d, env);
    ImportedHeader(d);
    FinishValidates(f, true, ObjectRecord(info, m));
    ImportedFits(f, d, plaintext, info, m, Finish(f, true, ObjectRecord(info, m)).value);
  }

  lemma KeyImportParts(f: Foreign, config: DeviceConfig, s: Durable, auth: SessionAuthorization, d: bytes, env: Env)
    returns (info: ObjectInfo, m: ObjectMaterial, plaintext: bytes)
    requires HandleImportKey(f, config, s, auth, d, env).Ok? && f.Lawful()
    ensures
      var q := DecodeKeyImport(d);
      && q.Ok?
      && var h, t := q.value.header, q.value.objectType;
         var wrap := ObjectKey(WrapKey, q.value.wrapId);
         && wrap in s.objects && f.unwrap(0x75, s.objects[wrap], s.options.fipsMode != OFF, d) == Ok(plaintext)
         && ResolveId(s.objects, t, h.requestedId, env.ids) == Ok(info.id)
         && info == ObjectInfo(h.capabilities, info.id, info.length, h.domains, t, h.algorithm, 0, 0x12,
                               TrimLabel(h.labelBytes), NO_CAPABILITIES)
         && (if t.SymmetricKey? then m == Secret(plaintext)
             else && t.AsymmetricKey? && f.keys.fromPkcs8(h.algorithm, plaintext).Some?
                  && m == PrivateKey(h.algorithm, f.keys.fromPkcs8(h.algorithm, plaintext).value))
    ensures Finish(f, true, ObjectRecord(info, m)).Ok?
    ensures HandleImportKey(f, config, s, auth, d, env)
            == Ok(Done(ImportResponse(info), WriteObject(Finish(f, true, ObjectRecord(info, m)).value)))
  {
    var q := DecodeKeyImport(d).value;
    var h := q.header;
    var wrap := Usable(config, s, auth, ObjectKey(WrapKey, q.wrapId)).value;
    plaintext := f.unwrap(0x75, wrap, s.options.fipsMode != OFF, d).value;
    PlanImports(f, q.objectType, h.algorithm, plaintext);
    var plan := KeyImportMaterial(f, q.objectType, h.algorithm, plaintext).value;
    m := plan.material.value;
    info := ObjectInfo(h.capabilities, ResolveId(s.objects, q.objectType, h.requestedId, env.ids).value, plan.length, h.domains,
                       q.objectType, h.algorithm, 0, 0x12, TrimLabel(h.labelBytes), NO_CAPABILITIES);
  }

  /** The metadata of an RSA-wrapped key import, at its place in the request, and its key. */
  predicate ImportedAs(f: Foreign, d: bytes, plaintext: bytes, r: ObjectRecord) {
    && |d| >= 58 && Typed(d)
    && r.info.objectType == TYPES[d[2] - 1]
    && (Id(d, 3) != 0 ==> r.info.id == Id(d, 3))
    && r.info.labelBytes == TrimLabel(d[5..45])
    && r.info.domains == Id(d, 45) && r.info.capabilities == d[47..55] && r.info.algorithm == d[55]
    && r.info.delegated == NO_CAPABILITIES && r.info.origin == 0x12
    && (if d[2] == 8 then r.material == Secret(plaintext)
        else d[2] == 3 && f.keys.fromPkcs8(d[55], plaintext).Some?
             && Validated(f.keys, true, d[55], PrivateKey(d[55], f.keys.fromPkcs8(d[55], plaintext).value), r.material))
  }

  lemma PlanImports(f: Foreign, t: ObjectType, a: byte, plaintext: bytes)
    requires KeyImportMaterial(f, t, a, plaintext).Ok? && KeyImportMaterial(f, t, a, plaintext).value.material.Ok?
    ensures
      var m := KeyImportMaterial(f, t, a, plaintext).value.material.value;
      if t.SymmetricKey? then m == Secret(plaintext)
      else t.AsymmetricKey? && f.keys.fromPkcs8(a, plaintext).Some? && m == PrivateKey(a, f.keys.fromPkcs8(a, plaintext).value)
  {
  }

  lemma ImportedFits(f: Foreign, d: bytes, plaintext: bytes, info: ObjectInfo, m: ObjectMaterial, r: ObjectRecord)
    requires |d| >= 58 && Typed(d) && r.info == info
    requires info.objectType == TYPES[d[2] - 1] && (Id(d, 3) != 0 ==> info.id == Id(d, 3))
    requires info.labelBytes == TrimLabel(d[5..45]) && info.domains == Id(d, 45) && info.capabilities == d[47..55]
    requires info.algorithm == d[55] && info.delegated == NO_CAPABILITIES && info.origin == 0x12
    requires Validated(f.keys, true, d[55], m, r.material)
    requires if info.objectType.SymmetricKey? then m == Secret(plaintext)
             else && info.objectType.AsymmetricKey? && f.keys.fromPkcs8(d[55], plaintext).Some?
                  && m == PrivateKey(d[55], f.keys.fromPkcs8(d[55], plaintext).value)
    ensures ImportedAs(f, d, plaintext, r)
  {
  }

  lemma ImportedHeader(d: bytes)
    requires |d| >= 58
    ensures
      var h := HeaderOf(d[3..56]);
      && h.requestedId == Id(d, 3) && h.labelBytes == d[5..45] && h.domains == Id(d, 45)
      && h.capabilities == d[47..55] && h.algorithm == d[55]
  {
    SliceOfSlice(d, 3, 56, 0, 2);
    SliceOfSlice(d, 3, 56, 2, 42);
    SliceOfSlice(d, 3, 56, 42, 44);
    SliceOfSlice(d, 3, 56, 44, 52);
  }

  lemma SliceOfSlice(d: bytes, a: nat, b: nat, i: nat, j: nat)
    requires a <= b <= |d| && i <= j <= b - a
    ensures d[a..b][i..j] == d[a + i..a + j] && (i == 0 ==> d[a..b][..j] == d[a..a + j])
  {
    var part, inner, outer := d[a..b], d[a..b][i..j], d[a + i..a + j];
    assert |inner| == |outer|;
    forall t | 0 <= t < j - i
      ensures inner[t] == outer[t]
    {
      assert inner[t] == part[i + t];
    }
    if i == 0 {
      assert d[a..b][..j] == d[a..a + j];
    }
  }

  // ----- changing an authentication key

  /** Changing an authentication key stores the key that was sent, under the same metadata but for
      algorithm and length. */
  lemma ChangedKeyIsSent(f: Foreign, config: DeviceConfig, s: Durable, d: bytes)
    requires SoundStore(f.keys, s.objects) && HandleChangeKey(f, config, s, d).Ok?
    ensures
      var done := HandleChangeKey(f, config, s, d).value;
      && |d| >= 3 && done.effect.WriteObject?
      && var k := ObjectKey(AuthenticationKey, Id(d, 0));
         var r := done.effect.record;
         && k in s.objects
         && r.info == s.objects[k].info.(algorithm := d[2], length := r.info.length)
         && Sent(f.keys, AuthenticationKey, d[2], [], d[3..], r.material)
         && done.data == EncodeU16(Id(d, 0))
  {
    IdIsDecoded(d, 0);
    var q := DecodeChange(d).value;
    var n := AuthenticationKeyLength(q.algorithm).value;
    var key := WrappedObjects.ParseAuthentication(f.keys, q.algorithm, q.material).value;
    var k := ObjectKey(AuthenticationKey, q.id);
    var r := ObjectRecord(s.objects[k].info.(algorithm := q.algorithm, length := n + 8), Authentication(key));
    CheckedAsIs(f.keys, r);
  }

  lemma CheckedAsIs(lib: KeyLibrary, r: ObjectRecord)
    requires CheckWrite(lib, r).Ok? && !r.material.Secret?
    ensures CheckWrite(lib, r).value == r
  {
  }
}
