/** What every inner command may do to the state, whichever handler ran. */
module Discipline {
  import opened Bytes
  import opened Errors
  import opened Capabilities
  import opened Algorithms
  import opened Objects
  import opened Protocol
  import Cmd
  import opened Options
  import opened Requests
  import opened Authorization
  import opened Store
  import opened ForeignCode
  import opened Commands
  import opened WrappedObjects
  import Frames
  import Volatile

  ghost predicate SoundStore(lib: KeyLibrary, objects: ObjectMap) {
    forall k | k in objects :: objects[k].info.Key() == k && Sound(lib, objects[k]) && WellTyped(objects[k])
  }

  /** What holds of durable state between commands. */
  ghost predicate DurableInv(f: Foreign, capacity: byte, s: Durable) {
    && SoundStore(f.keys, s.objects)
    && ValidOptions(s.options)
    && (forall id | id in s.generations :: id != 0 && id != 0xffff)
    && |s.log.entries| <= capacity
    && f.keys.Retained(EC_P256, s.deviceKey)
  }

  /** An object within what the session may delegate. */
  predicate Attenuated(auth: SessionAuthorization, info: ObjectInfo) {
    && Within(info.domains, auth.domains)
    && IsSubsetOf(info.capabilities, auth.delegated)
    && IsSubsetOf(info.delegated, auth.delegated)
  }

  predicate SamePowers(a: ObjectInfo, b: ObjectInfo) {
    a.capabilities == b.capabilities && a.delegated == b.delegated && a.domains == b.domains
  }

  /** A write makes a new attenuated object or keeps the powers of the one it replaces. */
  predicate WriteAllowed(objects: ObjectMap, auth: SessionAuthorization, info: ObjectInfo) {
    if info.Key() in objects then SamePowers(info, objects[info.Key()].info) else Attenuated(auth, info)
  }

  /** HMAC keys have between 1 and 128 bytes; their length field does not say so. */
  predicate Modest(r: ObjectRecord) {
    r.info.objectType.HmacKey? ==> 1 <= r.material.Length() <= 128
  }

  ghost predicate WriteSound(lib: KeyLibrary, r: ObjectRecord) {
    Sound(lib, r) && WellTyped(r) && Modest(r)
  }

  /** A handle and at most one public key. */
  const MAX_VOLATILE_ANSWER := 8 + 65

  ghost predicate Permitted(f: Foreign, s: Durable, v: Option<Volatile.Store>, auth: SessionAuthorization,
                            c: CommandCode, d: Done)
  {
    match d.effect
    case NoEffect => true
    case WriteObject(r) =>
      && ChangesPersistentState(c) && |d.data| <= 3
      && WriteSound(f.keys, r) && WriteAllowed(s.objects, auth, r.info)
    case RemoveObject(k) =>
      && c == Cmd.DeleteObject && d.data == []
      && k in s.objects && auth.AuthorizeDelete(s.objects[k].info).Ok?
    case ReplaceOptions(o) =>
      && c == Cmd.SetOption && d.data == []
      && Latched(s.options, o) && (ValidOptions(s.options) ==> ValidOptions(o))
    case TrimLog(_) => c == Cmd.SetLogIndex && d.data == []
    case Reset(key) =>
      && c == Cmd.ResetDevice && d.data == [] && Contains(auth.capabilities, RESET_DEVICE)
      && f.keys.Retained(EC_P256, key)
    case AddVolatile(h, _) =>
      && c == Cmd.SessionObject && |d.data| <= MAX_VOLATILE_ANSWER
      && v.Some? && h != 0 && h !in v.value && |v.value| < Volatile.MAX_SESSION_OBJECTS
    case DropVolatile(h) => c == Cmd.SessionObject && d.data == [] && v.Some? && h in v.value
  }

  // ----- creation

  lemma FinishKeeps(f: Foreign, imported: bool, r: ObjectRecord)
    requires f.Lawful() && Finish(f, imported, r).Ok? && WellTyped(r) && Modest(r)
    requires r.material.PrivateKey? ==> Settled(f.keys, r)
    ensures WriteSound(f.keys, Finish(f, imported, r).value) && Finish(f, imported, r).value.info == r.info
  {
    if imported {
      CheckImportKeeps(f.keys, r);
    } else {
      CheckWriteKeeps(f.keys, r);
    }
  }

  lemma PlanSettles(f: Foreign, enabled: bool, recipe: Recipe, q: ObjectRequest, seed: bytes, info: ObjectInfo)
    requires f.Lawful()
    requires PlanFor(f, enabled, recipe, q, seed).Ok? && PlanFor(f, enabled, recipe, q, seed).value.material.Ok?
    requires info.objectType == recipe.objectType && info.algorithm == q.header.algorithm
    requires recipe.objectType.OtpAeadKey? ==> |q.nonceId| == 4
    ensures
      var r := ObjectRecord(info, PlanFor(f, enabled, recipe, q, seed).value.material.value);
      WellTyped(r) && Modest(r) && (r.material.PrivateKey? ==> Settled(f.keys, r))
  {
  }

  lemma AuthorizedIsAttenuated(auth: SessionAuthorization, info: ObjectInfo, c: Capability)
    requires auth.AuthorizeCreate(info, c).Ok?
    ensures Attenuated(auth, info)
  {
  }

  predicate RecipeConsistent(recipe: Recipe) {
    recipe.objectType.OtpAeadKey? <==> recipe.shape.OtpShape?
  }

  lemma CreateDiscipline(f: Foreign, config: DeviceConfig, s: Durable, auth: SessionAuthorization,
                         recipe: Recipe, d: bytes, env: Env)
    requires f.Lawful() && RecipeConsistent(recipe)
    requires HandleCreate(f, config, s, auth, recipe, d, env).Ok?
    ensures
      var done := HandleCreate(f, config, s, auth, recipe, d, env).value;
      && done.effect.WriteObject? && |done.data| == 2
      && WriteSound(f.keys, done.effect.record) && WriteAllowed(s.objects, auth, done.effect.record.info)
  {
    var q := DecodeObject(recipe.shape, d).value;
    var h := q.header;
    var enabled := AlgorithmEnabled(config, s.options, h.algorithm);
    var plan := PlanFor(f, enabled, recipe, q, env.seed).value;
    ResolvedIsNew(s.objects, recipe.objectType, h.requestedId, env.ids);
    var id := ResolveId(s.objects, recipe.objectType, h.requestedId, env.ids).value;
    var info := ObjectInfo(h.capabilities, id, plan.length, h.domains, recipe.objectType, h.algorithm, 0,
                           if recipe.generate then 1 else 2, TrimLabel(h.labelBytes), q.delegated);
    AuthorizedIsAttenuated(auth, info, recipe.capability);
    PlanSettles(f, enabled, recipe, q, env.seed, info);
    FinishKeeps(f, recipe.imported, ObjectRecord(info, plan.material.value));
  }

  lemma WriteOpaqueDiscipline(f: Foreign, config: DeviceConfig, s: Durable, auth: SessionAuthorization, d: bytes, env: Env)
    requires f.Lawful() && SoundStore(f.keys, s.objects)
    requires HandleWriteOpaque(f, config, s, auth, d, env).Ok?
    ensures
      var done := HandleWriteOpaque(f, config, s, auth, d, env).value;
      && done.effect.WriteObject? && |done.data| == 2
      && WriteSound(f.keys, done.effect.record) && WriteAllowed(s.objects, auth, done.effect.record.info)
  {
    var q := DecodeObject(PlainShape, d).value;
    var h := q.header;
    var k := ObjectKey(OpaqueObject, h.requestedId);
    if h.requestedId != 0 && k in s.objects {
      CheckWriteKeeps(f.keys, ObjectRecord(s.objects[k].info.(length := |q.material|), OpaqueBytes(q.material)));
    } else {
      ResolvedIsNew(s.objects, OpaqueObject, h.requestedId, env.ids);
      var id := ResolveId(s.objects, OpaqueObject, h.requestedId, env.ids).value;
      var info := ObjectInfo(h.capabilities, id, |q.material|, h.domains, OpaqueObject, h.algorithm, 0, 2,
                             TrimLabel(h.labelBytes), NO_CAPABILITIES);
      AuthorizedIsAttenuated(auth, info, PUT_OPAQUE);
      FinishKeeps(f, false, ObjectRecord(info, OpaqueBytes(q.material)));
    }
  }

  lemma ChangeKeyDiscipline(f: Foreign, config: DeviceConfig, s: Durable, auth: SessionAuthorization, d: bytes)
    requires f.Lawful() && SoundStore(f.keys, s.objects)
    requires HandleChangeKey(f, config, s, d).Ok?
    ensures
      var done := HandleChangeKey(f, config, s, d).value;
      && done.effect.WriteObject? && |done.data| == 2
      && WriteSound(f.keys, done.effect.record) && WriteAllowed(s.objects, auth, done.effect.record.info)
  {
    var q := DecodeChange(d).value;
    var n := AuthenticationKeyLength(q.algorithm).value;
    var key := ParseAuthentication(f.keys, q.algorithm, q.material).value;
    var k := ObjectKey(AuthenticationKey, q.id);
    var old_ := s.objects[k];
    assert old_.info.Key() == k;
    CheckWriteKeeps(f.keys, ObjectRecord(old_.info.(algorithm := q.algorithm, length := n + 8), Authentication(key)));
  }

  lemma UnwrappedSettles(f: Foreign, plaintext: bytes, id: u16)
    requires f.Lawful() && DecodeWrapped(f.reader, f.keys, plaintext).Ok?
    ensures
      var u := DecodeWrapped(f.reader, f.keys, plaintext).value;
      var r := u.(info := u.info.(id := id, origin := SetBit(u.info.origin, 0x10)));
      WellTyped(r) && Modest(r) && Settled(f.keys, r)
  {
    DecodedIsEncoding(f.reader, f.keys, plaintext);
  }

  lemma ImportDiscipline(f: Foreign, config: DeviceConfig, s: Durable, auth: SessionAuthorization, c: CommandCode,
                         d: bytes, env: Env)
    requires f.Lawful() && HandleImport(f, config, s, auth, c, d, env).Ok?
    ensures
      var done := HandleImport(f, config, s, auth, c, d, env).value;
      && done.effect.WriteObject? && |done.data| == 3
      && WriteSound(f.keys, done.effect.record) && WriteAllowed(s.objects, auth, done.effect.record.info)
  {
    var wrap := Usable(config, s, auth, ObjectKey(WrapKey, DecodeWrapId(c, d).value)).value;
    var plaintext := f.unwrap(c, wrap, false, d).value;
    var u := DecodeWrapped(f.reader, f.keys, plaintext).value;
    ResolvedIsNew(s.objects, u.info.objectType, u.info.id, env.ids);
    var id := ResolveId(s.objects, u.info.objectType, u.info.id, env.ids).value;
    AuthorizedIsAttenuated(auth, u.info, IMPORT_WRAPPED);
    UnwrappedSettles(f, plaintext, id);
    FinishKeeps(f, true, u.(info := u.info.(id := id, origin := SetBit(u.info.origin, 0x10))));
  }

  lemma KeyImportSettles(f: Foreign, t: ObjectType, a: byte, plaintext: bytes, info: ObjectInfo)
    requires f.Lawful() && KeyImportMaterial(f, t, a, plaintext).Ok?
    requires info.objectType == t && info.algorithm == a
    requires KeyImportMaterial(f, t, a, plaintext).value.material.Ok?
    ensures
      var r := ObjectRecord(info, KeyImportMaterial(f, t, a, plaintext).value.material.value);
      WellTyped(r) && Modest(r) && (r.material.PrivateKey? ==> Settled(f.keys, r))
  {
  }

  lemma ImportKeyDiscipline(f: Foreign, config: DeviceConfig, s: Durable, auth: SessionAuthorization, d: bytes, env: Env)
    requires f.Lawful() && HandleImportKey(f, config, s, auth, d, env).Ok?
    ensures
      var done := HandleImportKey(f, config, s, auth, d, env).value;
      && done.effect.WriteObject? && |done.data| == 3
      && WriteSound(f.keys, done.effect.record) && WriteAllowed(s.objects, auth, done.effect.record.info)
  {
    var q := DecodeKeyImport(d).value;
    var h := q.header;
    var wrap := Usable(config, s, auth, ObjectKey(WrapKey, q.wrapId)).value;
    var plaintext := f.unwrap(Cmd.PutRsaWrappedKey, wrap, s.options.fipsMode != OFF, d).value;
    var plan := KeyImportMaterial(f, q.objectType, h.algorithm, plaintext).value;
    ResolvedIsNew(s.objects, q.objectType, h.requestedId, env.ids);
    var id := ResolveId(s.objects, q.objectType, h.requestedId, env.ids).value;
    var info := ObjectInfo(h.capabilities, id, plan.length, h.domains, q.objectType, h.algorithm, 0, 0x12,
                           TrimLabel(h.labelBytes), NO_CAPABILITIES);
    AuthorizedIsAttenuated(auth, info, IMPORT_WRAPPED);
    KeyImportSettles(f, q.objectType, h.algorithm, plaintext, info);
    FinishKeeps(f, true, ObjectRecord(info, plan.material.value));
  }

  // ----- volatile objects

  /** The volatile commands touch nothing durable and add only under a fresh handle. */
  predicate VolatileOnly(v: Volatile.Store, done: Done) {
    match done.effect
    case NoEffect => true
    case AddVolatile(h, _) =>
      h != 0 && h !in v && |v| < Volatile.MAX_SESSION_OBJECTS && |done.data| <= MAX_VOLATILE_ANSWER
    case DropVolatile(h) => h in v && done.data == []
    case _ => false
  }

  lemma AddDiscipline(v: Volatile.Store, o: Volatile.SessionObject, public: bytes, env: Env)
    requires Add(v, o, public, env).Ok? && |public| <= 65
    ensures VolatileOnly(v, Add(v, o, public, env).value)
  {
    Volatile.FirstFreeIsFresh(v, env.handles);
  }

  lemma AddDerivedDiscipline(v: Volatile.Store, h: ResultHeader, value: bytes, env: Env)
    requires AddDerived(v, h, value, env).Ok?
    ensures VolatileOnly(v, AddDerived(v, h, value, env).value)
  {
    AddDiscipline(v, Volatile.NewSecret(h.kind, h.flags, value).value, [], env);
  }

  lemma GenerateDiscipline(f: Foreign, v: Volatile.Store, p: bytes, env: Env)
    requires f.Lawful() && VolatileGenerate(f, v, p, env).Ok?
    ensures VolatileOnly(v, VolatileGenerate(f, v, p, env).value)
  {
    var key := f.newP256(env.seed).value;
    AddDiscipline(v, Volatile.SessionObject(Volatile.P256Private, p[0], key), f.p256Public(key), env);
  }

  lemma VolatileDiscipline(f: Foreign, config: DeviceConfig, s: Durable, v: Option<Volatile.Store>,
                           auth: SessionAuthorization, d: bytes, env: Env)
    requires f.Lawful() && HandleVolatile(f, config, s, v, auth, d, env).Ok?
    ensures v.Some? && VolatileOnly(v.value, HandleVolatile(f, config, s, v, auth, d, env).value)
  {
    if d[0] == 0x46 {
      GenerateDiscipline(f, v.value, d[1..], env);
    } else if d[0] !in {0x01, 0x02, 0x58} {
      var x := Derive(f, config, s, v.value, auth, d[0], d[1..]).value;
      AddDerivedDiscipline(v.value, x.header, x.value, env);
    }
  }

  // ----- everything together

  /** The capability that the registry demands before anything else is the one that the command's
      own authorization asks of the session. */
  lemma RegistryAgrees(c: CommandCode)
    ensures GroupOf(c).Create? ==> RequiredSessionCapability(c) == Some(GroupOf(c).recipe.capability)
    ensures GroupOf(c).UseKey? ==> RequiredSessionCapability(c) == Some(GroupOf(c).use.capability)
    ensures GroupOf(c).Export? ==> RequiredSessionCapability(c) == Some(EXPORT_WRAPPED)
    ensures GroupOf(c).Import? || GroupOf(c).ImportKey? ==> RequiredSessionCapability(c) == Some(IMPORT_WRAPPED)
    ensures GroupOf(c).WriteOpaque? ==> RequiredSessionCapability(c) == Some(PUT_OPAQUE)
    ensures GroupOf(c).ChangeKey? ==> RequiredSessionCapability(c) == Some(CHANGE_AUTHENTICATION_KEY)
  {
  }

  lemma RecipesConsistent(c: CommandCode)
    requires GroupOf(c).Create?
    ensures RecipeConsistent(GroupOf(c).recipe) && ChangesPersistentState(c)
  {
  }

  lemma WritingGroups(c: CommandCode)
    ensures GroupOf(c).WriteOpaque? || GroupOf(c).ChangeKey? || GroupOf(c).Import? || GroupOf(c).ImportKey? ==>
              ChangesPersistentState(c)
    ensures GroupOf(c).Delete? ==> c == Cmd.DeleteObject
    ensures GroupOf(c).WriteOption? ==> c == Cmd.SetOption
    ensures GroupOf(c).TrimEntries? ==> c == Cmd.SetLogIndex
    ensures GroupOf(c).ResetAll? ==> c == Cmd.ResetDevice
    ensures GroupOf(c).UseVolatile? ==> c == Cmd.SessionObject
  {
  }

  lemma WriterDiscipline(f: Foreign, config: DeviceConfig, s: Durable, v: Option<Volatile.Store>,
                         auth: SessionAuthorization, c: CommandCode, d: bytes, env: Env)
    requires f.Lawful() && SoundStore(f.keys, s.objects)
    requires !ReadOnly(GroupOf(c)) && HandleChange(f, config, s, v, auth, c, d, env).Ok?
    requires var g := GroupOf(c); g.Create? || g.WriteOpaque? || g.ChangeKey? || g.Import? || g.ImportKey?
    ensures Permitted(f, s, v, auth, c, HandleChange(f, config, s, v, auth, c, d, env).value)
  {
    WritingGroups(c);
    match GroupOf(c)
    case Create(recipe) =>
      RecipesConsistent(c);
      CreateDiscipline(f, config, s, auth, recipe, d, env);
    case WriteOpaque =>
      WriteOpaqueDiscipline(f, config, s, auth, d, env);
    case ChangeKey =>
      ChangeKeyDiscipline(f, config, s, auth, d);
    case Import =>
      ImportDiscipline(f, config, s, auth, c, d, env);
    case ImportKey =>
      ImportKeyDiscipline(f, config, s, auth, d, env);
  }

  lemma OtherDiscipline(f: Foreign, config: DeviceConfig, s: Durable, v: Option<Volatile.Store>,
                        auth: SessionAuthorization, c: CommandCode, d: bytes, env: Env)
    requires f.Lawful()
    requires !ReadOnly(GroupOf(c)) && Authorize(f, s.objects, auth, c, d).Ok? && HandleChange(f, config, s, v, auth, c, d, env).Ok?
    requires var g := GroupOf(c);
             g.Delete? || g.WriteOption? || g.TrimEntries? || g.ResetAll? || g.UseVolatile?
    ensures Permitted(f, s, v, auth, c, HandleChange(f, config, s, v, auth, c, d, env).value)
  {
    WritingGroups(c);
    match GroupOf(c)
    case WriteOption =>
      SetOptionLatches(config, IsFresh(s.objects), s.options, d);
    case UseVolatile =>
      VolatileDiscipline(f, config, s, v, auth, d, env);
    case _ =>
  }

  /** The one fact about handlers that the runs below rest on. */
  lemma CommandDiscipline(f: Foreign, config: DeviceConfig, s: Durable, v: Option<Volatile.Store>,
                          auth: SessionAuthorization, request: Frames.Frame, env: Env)
    requires f.Lawful() && SoundStore(f.keys, s.objects)
    requires ExecuteResult(f, config, s, v, auth, request, env).Ok?
    ensures FromByte(request.command).Some?
    ensures Permitted(f, s, v, auth, request.command, ExecuteResult(f, config, s, v, auth, request, env).value)
    ensures ExecuteResult(f, config, s, v, auth, request, env).value.effect.NoEffect?
            || SupportedCommand(config.firmware, request.command)
  {
    var c := request.command;
    var g := GroupOf(c);
    if ReadOnly(g) {
    } else if g.Create? || g.WriteOpaque? || g.ChangeKey? || g.Import? || g.ImportKey? {
      WriterDiscipline(f, config, s, v, auth, c, request.data, env);
    } else {
      OtherDiscipline(f, config, s, v, auth, c, request.data, env);
    }
  }
}
