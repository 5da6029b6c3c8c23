/** The device as an object whose methods change it in place, each proved against the state machine. */
module LiveDevice {
  import opened Bytes
  import opened Errors
  import opened Capabilities
  import opened Algorithms
  import opened Frames
  import opened Envelope
  import opened SecureChannel
  import opened Objects
  import opened Protocol
  import Cmd
  import opened Options
  import opened Requests
  import opened Authorization
  import opened Store
  import opened ForeignCode
  import opened Commands
  import opened Persistence
  import M = Machine
  import Audit
  import Cbor
  import Counter
  import Volatile
  import WrappedObjects

  /** A check that passed says nothing more; one that failed keeps its error. */
  function Checked<T>(r: Result<T>): Result<()> {
    if r.Ok? then Ok(()) else Err(r.error)
  }

  /** What the client is told of a handler's result. */
  function Answered(r: Result<Done>): Result<bytes> {
    if r.Ok? then Ok(r.value.data) else Err(r.error)
  }

  /** The result changes session objects at most. */
  predicate VolatileAtMost(r: Result<Done>) {
    !ChangesDurable(M.EffectOf(r))
  }

  lemma VolatileKeepsDurable(f: Foreign, config: DeviceConfig, s: Durable, v: Option<Volatile.Store>,
                             auth: SessionAuthorization, d: bytes, env: Env)
    ensures VolatileAtMost(HandleVolatile(f, config, s, v, auth, d, env))
  {
  }

  /** The result changes durable state at most. */
  predicate DurableAtMost(r: Result<Done>) {
    !M.EffectOf(r).AddVolatile? && !M.EffectOf(r).DropVolatile?
  }

  lemma CreateAtMost(f: Foreign, config: DeviceConfig, s: Durable, auth: SessionAuthorization, recipe: Recipe, d: bytes, env: Env)
    ensures DurableAtMost(HandleCreate(f, config, s, auth, recipe, d, env))
  {
  }

  lemma ReplacersAtMost(f: Foreign, config: DeviceConfig, s: Durable, auth: SessionAuthorization, d: bytes, env: Env)
    ensures DurableAtMost(HandleWriteOpaque(f, config, s, auth, d, env)) && DurableAtMost(HandleChangeKey(f, config, s, d))
  {
  }

  lemma ImportersAtMost(f: Foreign, config: DeviceConfig, s: Durable, auth: SessionAuthorization, c: CommandCode, d: bytes, env: Env)
    ensures DurableAtMost(HandleImport(f, config, s, auth, c, d, env))
    ensures DurableAtMost(HandleImportKey(f, config, s, auth, d, env))
  {
  }

  lemma DurableKeepsVolatile(f: Foreign, config: DeviceConfig, s: Durable, v: Option<Volatile.Store>,
                             auth: SessionAuthorization, c: CommandCode, d: bytes, env: Env)
    requires !ReadOnly(GroupOf(c)) && !GroupOf(c).UseVolatile?
    ensures DurableAtMost(HandleChange(f, config, s, v, auth, c, d, env))
  {
    match GroupOf(c)
    case Create(recipe) => CreateAtMost(f, config, s, auth, recipe, d, env);
    case WriteOpaque => ReplacersAtMost(f, config, s, auth, d, env);
    case ChangeKey => ReplacersAtMost(f, config, s, auth, d, env);
    case Import => ImportersAtMost(f, config, s, auth, c, d, env);
    case ImportKey => ImportersAtMost(f, config, s, auth, c, d, env);
    case _ =>
  }

  /** The session objects a command may touch, if it runs inside a session. */
  function Contents(held: Volatile.SessionObjects?): Option<Volatile.Store>
    reads held
  {
    if held == null then None else Some(held.objects)
  }

  /** What a session-object command has done: the answer, and the whole new collection. In
      particular an error leaves it as it was. */
  ghost predicate DidVolatile(held: Volatile.SessionObjects, before: Volatile.Store, spec: Result<Done>, r: Result<bytes>)
    reads held
  {
    && r == Answered(spec)
    && held.objects == ApplyVolatile(before, M.EffectOf(spec))
    && (r.Err? ==> held.objects == before)
  }

  class Device {
    const config: DeviceConfig
    var objects: ObjectMap
    var sessions: M.SessionTable
    var deviceKey: bytes
    var stateEpoch: u64
    var sequenceHistory: map<u16, u64>
    var options: DeviceOptions
    var audit: Audit.Log
    var persistentChange: bool

    function View(): M.Device
      reads this
    {
      M.Device(config, Durable(objects, sequenceHistory, options, audit, deviceKey), sessions, stateEpoch, persistentChange)
    }

    /** Everything a device holds, put back as it was. */
    constructor From(d: M.Device)
      ensures View() == d
    {
      config, sessions, stateEpoch, persistentChange := d.config, d.sessions, d.epoch, d.dirty;
      objects, sequenceHistory, options := d.durable.objects, d.durable.generations, d.durable.options;
      audit, deviceKey := d.durable.log, d.durable.deviceKey;
    }

    // ----- audit

    method AppendAuditEntry(f: Foreign, auth: SessionAuthorization, c: CommandCode, request: Frame, code: byte)
      modifies this
      ensures View() == M.AppendAudit(f, old(View()), M.FactOf(auth, c, request, code))
    {
      if |audit.entries| >= config.logCapacity {
        return;
      }
      var entry := Audit.NextEntry(f.hash, audit, M.FactOf(auth, c, request, code));
      audit := audit.(previousDigest := entry.digest);
      audit := audit.(nextNumber := Audit.After(audit.nextNumber));
      audit := audit.(systick := (audit.systick + 1) % 0x1_0000_0000);
      audit := audit.(entries := audit.entries + [entry]);
      persistentChange := true;
    }

    method RecordUnloggedAuthenticationIfFull()
      modifies this
      ensures View() == M.RecordUnlogged(old(View()))
    {
      if options.forceAudit != OFF && |audit.entries| >= config.logCapacity {
        audit := Audit.CountUnlogged(audit);
        persistentChange := true;
      }
    }

    // ----- changes that commands make

    method RecordGeneration(id: u16, generation: u64)
      modifies this`sequenceHistory
      ensures sequenceHistory == old(sequenceHistory)[id := generation]
    {
      sequenceHistory := sequenceHistory[id := generation];
    }

    method WriteChecked(f: Foreign, record: ObjectRecord)
      modifies this
      ensures View() == M.ApplyEffect(f, old(View()), Effect.WriteObject(record))
    {
      var key := record.info.Key();
      var generation := if key.id in sequenceHistory then (sequenceHistory[key.id] + 1) % U64_MODULUS else 0;
      var written := record.(info := record.info.(sequence := generation % 0x100));
      RecordGeneration(key.id, generation);
      objects := objects[key := written];
    }

    /** The state after writing what a check let through, or the state before. */
    ghost function Written(f: Foreign, before: M.Device, checked: Result<ObjectRecord>): M.Device {
      if checked.Ok? then M.ApplyEffect(f, before, Effect.WriteObject(checked.value)) else before
    }

    /** The one way by which protocol commands write objects: all checks precede the change. */
    method WriteObject(f: Foreign, record: ObjectRecord) returns (r: Result<()>)
      modifies this
      ensures r == Checked(CheckWrite(f.keys, record))
      ensures View() == Written(f, old(View()), CheckWrite(f.keys, record))
    {
      var promoted :- Promote(f.keys, record);
      var _ :- Validate(promoted);
      if promoted.info.objectType.PublicWrapKey? {
        if !IsRsaKey(promoted.info.algorithm) || !promoted.material.PublicModulus? {
          return Err(InvalidData);
        }
        var bits := 8 * AsymmetricKeyLength(promoted.info.algorithm).value;
        var problem := f.keys.publicKeyError(promoted.material.value, bits);
        if problem.Some? {
          return Err(problem.value);
        }
      }
      WriteChecked(f, promoted);
      r := Ok(());
    }

    /** Imports validate a private RSA key before any change. */
    method WriteImportedObject(f: Foreign, record: ObjectRecord) returns (r: Result<()>)
      modifies this
      ensures r == Checked(CheckImport(f.keys, record))
      ensures View() == Written(f, old(View()), CheckImport(f.keys, record))
    {
      var promoted :- Promote(f.keys, record);
      var _ :- Validate(promoted);
      if promoted.material.PrivateKey? && IsRsaKey(promoted.material.algorithm) {
        if promoted.material.algorithm != promoted.info.algorithm {
          return Err(InvalidData);
        }
        var validated :- f.keys.validateImport(promoted.info.algorithm, promoted.material.encoded);
        promoted := promoted.(material := PrivateKey(promoted.info.algorithm, validated));
      }
      r := WriteObject(f, promoted);
    }

    /** Validate, then write with or without the import checks. */
    method Finish(f: Foreign, imported: bool, record: ObjectRecord) returns (r: Result<()>)
      modifies this
      ensures r == Checked(Commands.Finish(f, imported, record))
      ensures View() == Written(f, old(View()), Commands.Finish(f, imported, record))
    {
      var _ :- Validate(record);
      if imported {
        r := WriteImportedObject(f, record);
      } else {
        r := WriteObject(f, record);
      }
    }

    method SetLogIndex(f: Foreign, data: bytes) returns (r: Result<bytes>)
      modifies this
      ensures |data| != 2 ==> r == Err(WrongLength) && View() == old(View())
      ensures |data| == 2 ==> r == Ok([]) && View() == M.ApplyEffect(f, old(View()), TrimLog(DecodeU16(data)))
    {
      if |data| != 2 {
        return Err(WrongLength);
      }
      var kept := Audit.RetainLoop(audit.entries, DecodeU16(data));
      audit := audit.(entries := kept);
      r := Ok([]);
    }

    /** Apply the pairs of an option list, all of them or none. */
    method SetOptionPairs(option: byte, values: bytes) returns (r: Result<map<byte, byte>>)
      requires values != [] && |values| % 2 == 0
      ensures r == SetPairs(config, option, if option == COMMAND_AUDIT then options.commandAudit else options.algorithmToggle, values)
    {
      r := SetPairsLoop(config, option, if option == COMMAND_AUDIT then options.commandAudit else options.algorithmToggle, values);
    }

    method SetOption(data: bytes) returns (r: Result<bytes>)
      modifies this`options
      ensures r.Ok? <==> ApplySetOption(config, IsFresh(objects), old(options), data).Ok?
      ensures r.Err? ==> r.error == ApplySetOption(config, IsFresh(objects), old(options), data).error
      ensures r.Ok? ==> r.value == []
      ensures options == if r.Ok? then ApplySetOption(config, IsFresh(objects), old(options), data).value else old(options)
    {
      var request :- DecodeSetOption(data);
      var option, values := request.option, request.values;
      if option == FORCE_AUDIT {
        if |values| != 1 {
          return Err(WrongLength);
        }
        var v :- SetValue(options.forceAudit, values[0]);
        options := options.(forceAudit := v);
      } else if option == COMMAND_AUDIT {
        if values == [] || |values| % 2 != 0 {
          return Err(WrongLength);
        }
        var updated := SetOptionPairs(option, values);
        if updated.Err? {
          return Err(updated.error);
        }
        options := options.(commandAudit := updated.value);
      } else if option == ALGORITHM_TOGGLE {
        if !IsFresh(objects) {
          return Err(InsufficientPermissions);
        }
        if values == [] || |values| % 2 != 0 {
          return Err(WrongLength);
        }
        var updated := SetOptionPairs(option, values);
        if updated.Err? {
          return Err(updated.error);
        }
        options := options.(algorithmToggle := updated.value);
      } else if option == FIPS_MODE {
        if !IsFresh(objects) {
          return Err(InsufficientPermissions);
        }
        if |values| != 1 {
          return Err(WrongLength);
        }
        var v :- SetValue(options.fipsMode, values[0]);
        options := options.(fipsMode := v);
      } else {
        return Err(InvalidData);
      }
      r := Ok([]);
    }

    method InstallFactoryAuthenticationKey(keys: StaticKeys)
      modifies this`objects, this`sequenceHistory
      ensures objects == old(objects)[FACTORY_KEY := FactoryRecord(keys)]
      ensures sequenceHistory == old(sequenceHistory)[1 := 0]
    {
      var record := FactoryRecord(keys);
      RecordGeneration(1, 0);
      objects := objects[record.info.Key() := record];
    }

    method ResetDevice(f: Foreign, renewed: bytes)
      modifies this
      ensures View() == M.ApplyEffect(f, old(View()), Reset(renewed))
    {
      objects := map[];
      sequenceHistory := map[];
      sessions := map[];
      deviceKey := renewed;
      options := DEFAULT_OPTIONS;
      audit := Audit.EMPTY_LOG;
      InstallFactoryAuthenticationKey(f.factoryKeys);
    }

    // ----- commands inside a session

    /** What a command that changes state has done: the answer, and the whole new state. In
        particular an error leaves the state as it was. */
    ghost predicate Did(f: Foreign, before: M.Device, spec: Result<Done>, r: Result<bytes>)
      reads this
    {
      && r == Answered(spec)
      && View() == M.AfterEffect(f, before, spec)
      && (r.Err? ==> View() == before)
    }

    method CreateObject(f: Foreign, auth: SessionAuthorization, recipe: Recipe, data: bytes, env: Env) returns (r: Result<bytes>)
      modifies this
      ensures Did(f, old(View()), HandleCreate(f, config, old(View()).durable, auth, recipe, data, env), r)
    {
      var q :- DecodeObject(recipe.shape, data);
      var h := q.header;
      var plan :- PlanFor(f, AlgorithmEnabled(config, options, h.algorithm), recipe, q, env.seed);
      var id :- ResolveId(objects, recipe.objectType, h.requestedId, env.ids);
      var info := ObjectInfo(h.capabilities, id, plan.length, h.domains, recipe.objectType, h.algorithm, 0,
                             if recipe.generate then 1 else 2, TrimLabel(h.labelBytes), q.delegated);
      var _ :- auth.AuthorizeCreate(info, recipe.capability);
      var material :- plan.material;
      var _ :- Finish(f, recipe.imported, ObjectRecord(info, material));
      r := Ok(EncodeU16(id));
    }

    method PutOpaque(f: Foreign, auth: SessionAuthorization, data: bytes, env: Env) returns (r: Result<bytes>)
      modifies this
      ensures Did(f, old(View()), HandleWriteOpaque(f, config, old(View()).durable, auth, data, env), r)
    {
      var q :- DecodeObject(PlainShape, data);
      var h, material := q.header, q.material;
      if !AlgorithmEnabled(config, options, h.algorithm) || (h.algorithm != OPAQUE_DATA && material == []) {
        return Err(InvalidData);
      }
      if h.requestedId != 0 && ObjectKey(OpaqueObject, h.requestedId) in objects {
        var replaced := objects[ObjectKey(OpaqueObject, h.requestedId)];
        if replaced.info.capabilities != h.capabilities || replaced.info.domains != h.domains
           || replaced.info.algorithm != h.algorithm || replaced.info.labelBytes != TrimLabel(h.labelBytes)
        {
          return Err(InvalidData);
        }
        if |material| > 0xffff {
          return Err(WrongLength);
        }
        var _ :- WriteObject(f, ObjectRecord(replaced.info.(length := |material|), OpaqueBytes(material)));
        r := Ok(EncodeU16(h.requestedId));
      } else {
        var id :- ResolveId(objects, OpaqueObject, h.requestedId, env.ids);
        if |material| > 0xffff {
          return Err(WrongLength);
        }
        var info := ObjectInfo(h.capabilities, id, |material|, h.domains, OpaqueObject, h.algorithm, 0, 2,
                               TrimLabel(h.labelBytes), NO_CAPABILITIES);
        var _ :- auth.AuthorizeCreate(info, PUT_OPAQUE);
        var _ :- Finish(f, false, ObjectRecord(info, OpaqueBytes(material)));
        r := Ok(EncodeU16(id));
      }
    }

    method ChangeAuthenticationKey(f: Foreign, data: bytes) returns (r: Result<bytes>)
      modifies this
      ensures Did(f, old(View()), HandleChangeKey(f, config, old(View()).durable, data), r)
    {
      var q :- DecodeChange(data);
      if !AlgorithmEnabled(config, options, q.algorithm) {
        return Err(InvalidData);
      }
      var n :- FromOption(AuthenticationKeyLength(q.algorithm), InvalidData);
      if |q.material| != n {
        return Err(WrongLength);
      }
      var key :- WrappedObjects.ParseAuthentication(f.keys, q.algorithm, q.material);
      var changed :- Find(objects, ObjectKey(AuthenticationKey, q.id));
      var _ :- WriteObject(f, ObjectRecord(changed.info.(algorithm := q.algorithm, length := n + 8), Authentication(key)));
      r := Ok(EncodeU16(q.id));
    }

    method ImportWrapped(f: Foreign, auth: SessionAuthorization, c: CommandCode, data: bytes, env: Env) returns (r: Result<bytes>)
      modifies this
      ensures Did(f, old(View()), HandleImport(f, config, old(View()).durable, auth, c, data, env), r)
    {
      var wrapId :- DecodeWrapId(c, data);
      if c == Cmd.ImportWrapped && (data[2] != 1 || |data| < 32) {
        return Err(WrongLength);
      }
      var wrap :- Usable(config, View().durable, auth, ObjectKey(WrapKey, wrapId));
      if if c == Cmd.ImportWrapped then !IsCcmWrap(wrap.info.algorithm) else !IsRsaKey(wrap.info.algorithm) {
        return Err(InvalidData);
      }
      var plaintext :- f.unwrap(c, wrap, false, data);
      var unwrapped :- WrappedObjects.DecodeWrapped(f.reader, f.keys, plaintext);
      var _ :- auth.AuthorizeWrappedCreation(unwrapped.info, wrap.info);
      var id :- ResolveId(objects, unwrapped.info.objectType, unwrapped.info.id, env.ids);
      var info := unwrapped.info.(id := id, origin := SetBit(unwrapped.info.origin, 0x10));
      var _ :- Finish(f, true, unwrapped.(info := info));
      r := Ok(ImportResponse(info));
    }

    method PutRsaWrappedKey(f: Foreign, auth: SessionAuthorization, data: bytes, env: Env) returns (r: Result<bytes>)
      modifies this
      ensures Did(f, old(View()), HandleImportKey(f, config, old(View()).durable, auth, data, env), r)
    {
      var q :- DecodeKeyImport(data);
      var h := q.header;
      if !(q.objectType.AsymmetricKey? || q.objectType.SymmetricKey?) || !AlgorithmEnabled(config, options, h.algorithm) {
        return Err(InvalidData);
      }
      var wrap :- Usable(config, View().durable, auth, ObjectKey(WrapKey, q.wrapId));
      if !IsRsaKey(wrap.info.algorithm) {
        return Err(InvalidData);
      }
      var plaintext :- f.unwrap(Cmd.PutRsaWrappedKey, wrap, options.fipsMode != OFF, data);
      var plan :- KeyImportMaterial(f, q.objectType, h.algorithm, plaintext);
      var id :- ResolveId(objects, q.objectType, h.requestedId, env.ids);
      var info := ObjectInfo(h.capabilities, id, plan.length, h.domains, q.objectType, h.algorithm, 0, 0x12,
                             TrimLabel(h.labelBytes), NO_CAPABILITIES);
      var _ :- auth.AuthorizeWrappedCreation(info, wrap.info);
      var material :- plan.material;
      var _ :- Finish(f, true, ObjectRecord(info, material));
      r := Ok(ImportResponse(info));
    }

    method DeleteObject(data: bytes) returns (r: Result<bytes>)
      modifies this`objects
      ensures r == if DecodeObjectKey(data).Ok? then Ok([]) else Err(DecodeObjectKey(data).error)
      ensures objects == if r.Ok? then old(objects) - {DecodeObjectKey(data).value} else old(objects)
    {
      var key :- DecodeObjectKey(data);
      objects := objects - {key};
      r := Ok([]);
    }

    method RenewDevice(f: Foreign, data: bytes, env: Env) returns (r: Result<bytes>)
      modifies this
      ensures data != [] ==> r == Err(WrongLength)
      ensures
        var renewed := f.keys.generate(EC_P256, env.seed);
        && (data == [] ==> r == if renewed.Some? then Ok([]) else Err(StorageFailed))
        && View() == if r.Ok? then M.ApplyEffect(f, old(View()), Reset(renewed.value)) else old(View())
    {
      if data != [] {
        return Err(WrongLength);
      }
      var renewed :- FromOption(f.keys.generate(EC_P256, env.seed), StorageFailed);
      ResetDevice(f, renewed);
      r := Ok([]);
    }

    /** Each handler that changes durable state does so in place. */
    method ChangeState(f: Foreign, ghost v: Option<Volatile.Store>, auth: SessionAuthorization, c: CommandCode, data: bytes,
                       env: Env) returns (r: Result<bytes>)
      requires !ReadOnly(GroupOf(c)) && !GroupOf(c).UseVolatile?
      modifies this
      ensures Did(f, old(View()), HandleChange(f, config, old(View()).durable, v, auth, c, data, env), r)
    {
      match GroupOf(c)
      case Create(recipe) => r := CreateObject(f, auth, recipe, data, env);
      case WriteOpaque => r := PutOpaque(f, auth, data, env);
      case ChangeKey => r := ChangeAuthenticationKey(f, data);
      case Import => r := ImportWrapped(f, auth, c, data, env);
      case ImportKey => r := PutRsaWrappedKey(f, auth, data, env);
      case TrimEntries => r := SetLogIndex(f, data);
      case WriteOption => r := SetOption(data);
      case Delete => r := DeleteObject(data);
      case ResetAll => r := RenewDevice(f, data, env);
    }

    /** Read what a derivation needs and compute its value; the Extract loop runs over buffers. */
    method DeriveValue(f: Foreign, held: Volatile.SessionObjects, auth: SessionAuthorization, operation: byte, p: bytes)
      returns (r: Result<Derivation>)
      ensures r == Derive(f, config, View().durable, held.objects, auth, operation, p)
    {
      if operation != 0x05 {
        return Derive(f, config, View().durable, held.objects, auth, operation, p);
      }
      var h :- DecodeResultHeader(p);
      if |p| != 14 {
        return Err(WrongLength);
      }
      var _ :- CheckResultHeader(h);
      var base :- DerivationSecret(held.objects, HandleOf(p[4..12]));
      var value := Volatile.ExtractLoop(base, DecodeU16(p[12..14]), h.length);
      r := Derived(h, value);
    }

    method InsertObject(held: Volatile.SessionObjects, o: Volatile.SessionObject, public: bytes, env: Env)
      returns (r: Result<bytes>)
      modifies held
      ensures DidVolatile(held, old(held.objects), Add(old(held.objects), o, public, env), r)
    {
      var handle := held.Insert(o, env.handles);
      if handle.None? {
        return Err(StorageFailed);
      }
      r := Ok(Cbor.BigEndian(handle.value, 8) + public);
    }

    method GenerateObject(f: Foreign, held: Volatile.SessionObjects, p: bytes, env: Env) returns (r: Result<bytes>)
      modifies held
      ensures DidVolatile(held, old(held.objects), VolatileGenerate(f, old(held.objects), p, env), r)
    {
      if |p| != 2 {
        return Err(WrongLength);
      }
      if !Volatile.ValidFlags(p[0]) || p[1] != EC_P256 || !Volatile.Derivable(p[0]) {
        return Err(InvalidData);
      }
      var key :- FromOption(f.newP256(env.seed), StorageFailed);
      r := InsertObject(held, Volatile.SessionObject(Volatile.P256Private, p[0], key), f.p256Public(key), env);
    }

    method RemoveSessionObject(held: Volatile.SessionObjects, p: bytes) returns (r: Result<bytes>)
      modifies held
      ensures DidVolatile(held, old(held.objects), VolatileDelete(old(held.objects), p), r)
    {
      if |p| != 8 {
        return Err(WrongLength);
      }
      var found := held.Remove(HandleOf(p));
      r := if found then Ok([]) else Err(ObjectNotFound);
    }

    method DeriveObject(f: Foreign, held: Volatile.SessionObjects, auth: SessionAuthorization, operation: byte, p: bytes, env: Env)
      returns (r: Result<bytes>)
      modifies held
      ensures DidVolatile(held, old(held.objects), StoreDerived(f, config, View().durable, old(held.objects), auth, operation, p, env), r)
    {
      var x :- DeriveValue(f, held, auth, operation, p);
      var o :- FromOption(Volatile.NewSecret(x.header.kind, x.header.flags, x.value), InvalidData);
      r := InsertObject(held, o, [], env);
    }

    /** Session-object commands leave the device alone, and after an error the session's objects too. */
    method SessionObjectCommand(f: Foreign, held: Volatile.SessionObjects?, auth: SessionAuthorization, data: bytes, env: Env)
      returns (r: Result<bytes>)
      modifies held
      ensures Did(f, View(), HandleVolatile(f, config, View().durable, old(Contents(held)), auth, data, env), r)
      ensures Contents(held) == M.AfterVolatile(old(Contents(held)),
                                                HandleVolatile(f, config, View().durable, old(Contents(held)), auth, data, env))
      ensures r.Err? ==> Contents(held) == old(Contents(held))
    {
      VolatileKeepsDurable(f, config, View().durable, Contents(held), auth, data, env);
      if held == null {
        return Err(InvalidSession);
      }
      if data == [] {
        return Err(WrongLength);
      }
      var p := data[1..];
      match data[0]
      case 0x01 => r := VolatileRead(held.objects, p);
      case 0x02 => r := VolatileVerify(f, held.objects, p);
      case 0x46 => r := GenerateObject(f, held, p, env);
      case 0x58 => r := RemoveSessionObject(held, p);
      case _ => r := DeriveObject(f, held, auth, data[0], p, env);
    }

    method ExecuteHandler(f: Foreign, held: Volatile.SessionObjects?, auth: SessionAuthorization, c: CommandCode, data: bytes, env: Env)
      returns (r: Result<bytes>)
      modifies this, held
      ensures Did(f, old(View()), Handle(f, config, old(View()).durable, old(Contents(held)), auth, c, data, env), r)
      ensures Contents(held)
              == M.AfterVolatile(old(Contents(held)), Handle(f, config, old(View()).durable, old(Contents(held)), auth, c, data, env))
    {
      if ReadOnly(GroupOf(c)) {
        r := HandleRead(f, config, View().durable, auth, c, data, env);
      } else if GroupOf(c).UseVolatile? {
        r := SessionObjectCommand(f, held, auth, data, env);
      } else {
        DurableKeepsVolatile(f, config, View().durable, Contents(held), auth, c, data, env);
        r := ChangeState(f, Contents(held), auth, c, data, env);
      }
    }

    method ExecuteInnerResult(f: Foreign, held: Volatile.SessionObjects?, auth: SessionAuthorization, request: Frame, env: Env)
      returns (r: Result<bytes>)
      modifies this, held
      ensures Did(f, old(View()), ExecuteResult(f, config, old(View()).durable, old(Contents(held)), auth, request, env), r)
      ensures Contents(held)
              == M.AfterVolatile(old(Contents(held)),
                                 ExecuteResult(f, config, old(View()).durable, old(Contents(held)), auth, request, env))
    {
      var c := FromByte(request.command);
      if c.None? {
        return Err(InvalidCommand);
      }
      if !GroupOf(c.value).Plain? {
        if !SupportedCommand(config.firmware, c.value) {
          return Err(InvalidCommand);
        }
        var allowed := Authorize(f, objects, auth, c.value, request.data);
        if allowed.Err? {
          return Err(allowed.error);
        }
      }
      r := ExecuteHandler(f, held, auth, c.value, request.data, env);
    }

    /** What follows a handler: the audit entry, then the mark. */
    method Settle(f: Foreign, ghost before: M.Device, shouldAudit: bool, auth: SessionAuthorization, c: Option<CommandCode>,
                  request: Frame, result: Result<bytes>)
      requires shouldAudit <==> c.Some? && ShouldAudit(before.durable.options, c.value)
      modifies this
      ensures View() == M.Settle(f, before, old(View()), auth, c, request, result)
    {
      if c.Some? {
        if shouldAudit {
          AppendAuditEntry(f, auth, c.value, request, ResultCode(result));
        }
        if result.Ok? && ChangesPersistentState(c.value) {
          persistentChange := true;
        }
      }
    }

    method ExecuteInnerWithSession(f: Foreign, held: Volatile.SessionObjects?, auth: SessionAuthorization, request: Frame, env: Env)
      returns (response: Frame)
      modifies this, held
      ensures M.Inner(View(), Contents(held), response) == M.ExecuteInner(f, old(View()), old(Contents(held)), auth, request, env)
    {
      ghost var before := View();
      var c := M.SupportedFromByte(config, request.command);
      var shouldAudit := c.Some? && ShouldAudit(options, c.value);
      if c.Some? && M.Gated(c.value) && options.forceAudit != OFF && |audit.entries| >= config.logCapacity {
        return ErrorFrame(LogFull);
      }
      var result := ExecuteInnerResult(f, held, auth, request, env);
      if result.Ok? && !SecureResponseDataFits(|result.value|) {
        result := Err(WrongLength);
      }
      Settle(f, before, shouldAudit, auth, c, request, result);
      response := ResultFrame(request.command, result);
    }

    // ----- sessions

    method ExpireInactiveSessions(now: nat)
      modifies this`sessions
      ensures View() == M.Expire(old(View()), now)
    {
      sessions := map sid | sid in sessions && now - sessions[sid].lastActivity < M.SESSION_TIMEOUT :: sessions[sid];
    }

    method FirstFreeSid() returns (sid: Option<byte>)
      ensures sid == M.FreeSid(sessions, 0)
    {
      var n := 0;
      while n < M.MAX_SESSIONS
        invariant 0 <= n <= M.MAX_SESSIONS
        invariant M.FreeSid(sessions, 0) == M.FreeSid(sessions, n)
        decreases M.MAX_SESSIONS - n
      {
        if n !in sessions {
          return Some(n);
        }
        n := n + 1;
      }
      sid := None;
    }

    /** The first half of a handshake, with the lowest free session identifier. */
    method BeginSession(f: Foreign, auth: SessionAuthorization, key: AuthenticationMaterial, peer: bytes, env: Env)
      returns (made: Result<M.NewSession>)
      ensures made == M.OpenSession(f, View(), auth, key, peer, env)
    {
      var free := FirstFreeSid();
      if free.None? {
        return Err(SessionsFull);
      }
      var sid := free.value;
      match key
      case SymmetricKeys(keys) =>
        var begun :- BeginSymmetric(f.cipher, sid, keys, peer, env.challenge);
        made := Ok(M.NewSession(sid, M.SessionEntry(auth, begun.secure, Some(begun.host), false, env.stamp, map[]),
                                [sid] + env.challenge + begun.card));
      case HostPublicKey(point) =>
        if |peer| != P256_PUBLIC_KEY_LENGTH {
          return Err(WrongLength);
        }
        var a :- FromOption(f.scp11(deviceKey, point, peer, env.seed), InvalidData);
        var secure := Secure(sid, a.sEnc, a.sMac, a.sRmac, Counter.Increment(Zeros(16)), a.receipt);
        made := Ok(M.NewSession(sid, M.SessionEntry(auth, secure, None, true, env.stamp, map[]), [sid] + a.ephemeral + a.receipt));
    }

    /** Insert the entry that a handshake made. */
    method Open(made: Result<M.NewSession>)
      modifies this
      ensures View() == M.AfterOpen(old(View()), made)
    {
      if made.Ok? {
        sessions := sessions[made.value.sid := made.value.entry];
        if made.value.entry.authenticated {
          RecordUnloggedAuthenticationIfFull();
        }
      }
    }

    method AuditOuter(f: Foreign, auth: SessionAuthorization, c: CommandCode, request: Frame, code: byte)
      modifies this
      ensures View() == M.AuditIf(f, old(View()), auth, c, request, code)
    {
      if ShouldAudit(options, c) {
        AppendAuditEntry(f, auth, c, request, code);
      }
    }

    method CreateSession(f: Foreign, request: Frame, env: Env) returns (r: Result<Frame>)
      modifies this
      ensures (View(), r) == M.CreateSession(f, old(View()), request, env)
    {
      if |request.data| < 2 {
        return Err(WrongLength);
      }
      var id := DecodeU16(request.data[..2]);
      var auth :- M.AuthorizationOf(objects, id);
      var key := objects[ObjectKey(AuthenticationKey, id)].material.key;
      var made := BeginSession(f, auth, key, request.data[2..], env);
      Open(made);
      AuditOuter(f, auth, Cmd.CreateSession, request, ResultCode(made));
      r := if made.Err? then Err(made.error) else Ok(Response(Cmd.CreateSession, made.value.response));
    }

    /** Check the host cryptogram through the session object. */
    method Admit(f: Foreign, entry: M.SessionEntry, request: Frame, env: Env) returns (r: Result<M.SessionEntry>)
      ensures r == M.Admit(f, entry, request, env)
    {
      if entry.authenticated {
        return Err(InvalidSession);
      }
      if entry.expected.None? {
        return Err(AuthenticationFailed);
      }
      var secure := new SecureSession.Resume(entry.secure);
      var accepted := secure.Authenticate(f.cipher, request, entry.expected.value);
      if accepted.Err? {
        return Err(accepted.error);
      }
      r := Ok(entry.(secure := secure.View(), expected := None, authenticated := true, lastActivity := env.stamp));
    }

    method AuthenticateSession(f: Foreign, request: Frame, env: Env) returns (r: Result<Frame>)
      modifies this
      ensures (View(), r) == M.AuthenticateSession(f, old(View()), request, env)
    {
      if request.data == [] {
        return Err(WrongLength);
      }
      var sid := request.data[0];
      if sid !in sessions {
        return Err(InvalidSession);
      }
      var entry := sessions[sid];
      sessions := sessions - {sid};
      var admitted := Admit(f, entry, request, env);
      if admitted.Ok? {
        sessions := sessions[sid := admitted.value];
        RecordUnloggedAuthenticationIfFull();
      }
      AuditOuter(f, entry.authorization, Cmd.AuthenticateSession, request, ResultCode(admitted));
      r := if admitted.Err? then Err(admitted.error) else Ok(Response(Cmd.AuthenticateSession, []));
    }

    /** The capability of the command itself comes before everything else. */
    method RunInner(f: Foreign, entry: M.SessionEntry, inner: Frame, env: Env)
      returns (v: Option<Volatile.Store>, response: Frame)
      modifies this
      ensures M.Inner(View(), v, response) == M.RunInner(f, old(View()), entry, inner, env)
    {
      if M.Denied(entry.authorization, inner) {
        return Some(entry.objects), ErrorFrame(InsufficientPermissions);
      }
      var held := new Volatile.SessionObjects(entry.objects);
      response := ExecuteInnerWithSession(f, held, entry.authorization, inner, env);
      v := Some(held.objects);
    }

    /** Seal the response and put the session back unless the command closed it. */
    method Conclude(f: Foreign, secure: SecureSession, entry: M.SessionEntry, v: Option<Volatile.Store>, inner: Frame,
                    unchecked: Frame, sid: byte, env: Env) returns (r: Result<Frame>)
      requires secure.Valid() && secure.View() == entry.secure
      modifies this, secure, secure.counter
      ensures (View(), r) == M.Conclude(f, M.Inner(old(View()), v, unchecked), sid, entry, inner, env)
    {
      var response := if SecureResponseFits(unchecked) then unchecked else ErrorFrame(WrongLength);
      r := secure.Encrypt(f.cipher, response);
      if r.Ok? && !M.Closes(FromByte(inner.command), M.Denied(entry.authorization, inner), response) {
        var next := entry.(secure := secure.View(), lastActivity := env.stamp, objects := M.StoreOf(v));
        sessions := sessions[sid := next];
      }
    }

    method SessionMessage(f: Foreign, request: Frame, env: Env) returns (r: Result<Frame>)
      modifies this
      ensures (View(), r) == M.SessionMessage(f, old(View()), request, env)
    {
      if request.data == [] {
        return Err(WrongLength);
      }
      var sid := request.data[0];
      if sid !in sessions {
        return Err(InvalidSession);
      }
      var entry := sessions[sid];
      sessions := sessions - {sid};
      if !entry.authenticated {
        return Err(InvalidSession);
      }
      var secure := new SecureSession.Resume(entry.secure);
      var inner := secure.Decrypt(f.cipher, request);
      if inner.Err? {
        return Err(inner.error);
      }
      var v, response := RunInner(f, entry, inner.value, env);
      r := Conclude(f, secure, entry.(secure := secure.View()), v, inner.value, response, sid, env);
    }

    // ----- frames

    method Dispatch(f: Foreign, request: Frame, env: Env) returns (r: Result<Frame>)
      modifies this
      ensures (View(), r) == M.Dispatch(f, old(View()), request, env)
    {
      if request.command == Cmd.CreateSession {
        r := CreateSession(f, request, env);
      } else if request.command == Cmd.AuthenticateSession {
        r := AuthenticateSession(f, request, env);
      } else if request.command == Cmd.SessionMessage {
        r := SessionMessage(f, request, env);
      } else if request.command == Cmd.Echo || request.command == Cmd.GetDeviceInfo || request.command == Cmd.GetDevicePublicKey {
        r := Ok(ResultFrame(request.command, HandlePlain(f, config, View().durable, request.command, request.data)));
      } else {
        r := Err(InvalidCommand);
      }
    }

    method HandleFrame(f: Foreign, request: Frame, env: Env) returns (response: Frame)
      modifies this
      ensures (View(), response) == M.HandleFrame(f, old(View()), request, env)
    {
      ExpireInactiveSessions(env.now);
      var r := Dispatch(f, request, env);
      response := if r.Ok? then r.value else ErrorFrame(r.error);
    }

    method HandleEncoded(f: Foreign, encoded: bytes, env: Env) returns (response: bytes)
      modifies this
      ensures (View(), response) == M.HandleEncoded(f, old(View()), encoded, env)
    {
      var request := Parse(encoded);
      var frame: Frame;
      if request.Err? {
        frame := ErrorFrame(request.error);
      } else {
        frame := HandleFrame(f, request.value, env);
      }
      response := EncodeBuffer(frame);
    }

    method ClearSessions()
      modifies this`sessions
      ensures View() == M.ClearSessions(old(View()))
    {
      sessions := map[];
    }

    method TakePersistentChange() returns (r: Result<bool>)
      modifies this
      ensures (View(), r) == M.TakePersistentChange(old(View()))
    {
      if !persistentChange {
        return Ok(false);
      }
      if stateEpoch + 1 == U64_MODULUS {
        return Err(StorageFailed);
      }
      stateEpoch := stateEpoch + 1;
      persistentChange := false;
      r := Ok(true);
    }

    /** The runtime's request: the frame, then the epoch. */
    method ExecuteObserving(f: Foreign, encoded: bytes, env: Env) returns (r: Result<bytes>)
      modifies this
      ensures (View(), r) == M.ExecuteObserving(f, old(View()), encoded, env)
    {
      var response := HandleEncoded(f, encoded, env);
      var taken := TakePersistentChange();
      r := if taken.Err? then Err(taken.error) else Ok(response);
    }
  }

  /** Restore a device from the bytes of an image: reading, header checks, device key, history,
      then every object. */
  method RestoreDevice(f: Foreign, codec: ImageCodec, config: DeviceConfig, encoded: bytes)
    returns (d: Option<Device>, error: Option<DeviceError>)
    ensures d.Some? <==> FromPersistentState(f, codec, config, encoded).Ok?
    ensures d.Some? ==> fresh(d.value) && d.value.View() == FromPersistentState(f, codec, config, encoded).value
    ensures d.None? ==> error == Some(FromPersistentState(f, codec, config, encoded).error)
  {
    d, error := None, Some(InvalidData);
    var loaded := codec.read(encoded);
    if loaded.None? || loaded.value.position != |encoded| {
      return;
    }
    var image := loaded.value.image;
    if !Acceptable(config, image) {
      return;
    }
    var deviceKey := f.keys.parse(EC_P256, image.deviceKey);
    if deviceKey.None? || !ValidHistory(image.generations) {
      return;
    }
    var objects := RestoreLoop(f, image.version, image.objects);
    if objects.Err? {
      return None, Some(objects.error);
    }
    var restored := new Device.From(
      M.Device(config, Durable(objects.value, image.generations, image.options, image.log, deviceKey.value), map[], image.epoch, false));
    d, error := Some(restored), None;
  }
}
