/** Objects that share no domain with a session can be erased without the session noticing. */
module Hidden {
  import opened Bytes
  import opened Errors
  import opened Capabilities
  import opened Algorithms
  import opened Frames
  import opened Objects
  import opened Protocol
  import opened Options
  import opened Requests
  import opened Authorization
  import opened Store
  import opened ForeignCode
  import opened Commands
  import opened Discipline
  import opened Machine
  import opened DeviceRuns
  import Volatile
  import WrappedObjects

  /** The store with everything erased that the session cannot see. */
  function Erased(auth: SessionAuthorization, s: Durable): Durable {
    s.(objects := Visible(auth, s.objects))
  }

  /** Commands that treat hidden objects as absent. Creation, wrapped export, attestation,
      storage information, option setting and reset are not among them. */
  predicate Covered(g: Group) {
    !(g.Create? || g.WriteOpaque? || g.Import? || g.ImportKey? || g.Export? || g.Attest? || g.StorageInfo?
      || g.WriteOption? || g.ResetAll?)
  }

  // ----- lookups

  lemma LookupsAlike(config: DeviceConfig, s: Durable, auth: SessionAuthorization, k: ObjectKey, c: Capability)
    ensures RequireObjectVisible(s.objects, auth, k) == RequireObjectVisible(Visible(auth, s.objects), auth, k)
    ensures AuthorizeObject(s.objects, auth, k, c) == AuthorizeObject(Visible(auth, s.objects), auth, k, c)
    ensures Usable(config, s, auth, k) == Usable(config, Erased(auth, s), auth, k)
  {
    if k in s.objects && !auth.CanSee(s.objects[k].info) {
      HiddenLooksMissing(auth, s.objects[k].info, c, c);
    }
  }

  lemma AuthorizedIsVisible(objects: ObjectMap, auth: SessionAuthorization, k: ObjectKey, c: Capability)
    requires AuthorizeObject(objects, auth, k, c).Ok?
    ensures RequireObjectVisible(objects, auth, k).Ok?
  {
  }

  // ----- listing

  lemma ListAppend(auth: SessionAuthorization, filters: Filters, records: seq<ObjectRecord>, r: ObjectRecord)
    ensures ListBytes(auth, filters, records + [r])
            == ListBytes(auth, filters, records) + if Listed(auth, filters, r) then ListEntry(r.info) else []
  {
    assert (records + [r])[..|records|] == records;
  }

  lemma ListNext(auth: SessionAuthorization, filters: Filters, objects: ObjectMap, n: nat)
    requires n < KEY_SPACE
    ensures
      var k := KeyAt(n);
      ListBytes(auth, filters, RecordsBelow(objects, n + 1))
      == ListBytes(auth, filters, RecordsBelow(objects, n))
         + if k.Some? && k.value in objects && Listed(auth, filters, objects[k.value])
           then ListEntry(objects[k.value].info) else []
  {
    RecordsNext(objects, n);
    var k := KeyAt(n);
    if k.Some? && k.value in objects {
      ListAppend(auth, filters, RecordsBelow(objects, n), objects[k.value]);
    }
  }

  ghost predicate ListsAlike(auth: SessionAuthorization, filters: Filters, objects: ObjectMap, n: nat)
    requires n <= KEY_SPACE
  {
    ListBytes(auth, filters, RecordsBelow(objects, n)) == ListBytes(auth, filters, RecordsBelow(Visible(auth, objects), n))
  }

  lemma ListsAlikeNext(auth: SessionAuthorization, filters: Filters, objects: ObjectMap, n: nat)
    requires n < KEY_SPACE && ListsAlike(auth, filters, objects, n)
    ensures ListsAlike(auth, filters, objects, n + 1)
  {
    ListNext(auth, filters, objects, n);
    ListNext(auth, filters, Visible(auth, objects), n);
  }

  lemma ListsAlikeNone(auth: SessionAuthorization, filters: Filters, objects: ObjectMap)
    ensures ListsAlike(auth, filters, objects, 0)
  {
  }

  lemma {:induction false} ListAlike(auth: SessionAuthorization, filters: Filters, objects: ObjectMap, n: nat)
    requires n <= KEY_SPACE
    ensures ListsAlike(auth, filters, objects, n)
  {
    if n == 0 {
      ListsAlikeNone(auth, filters, objects);
    } else {
      ListAlike(auth, filters, objects, n - 1);
      ListsAlikeNext(auth, filters, objects, n - 1);
    }
  }

  // ----- authorization and handlers

  lemma AuthorizeUseAlike(f: Foreign, s: Durable, auth: SessionAuthorization, c: CommandCode, d: bytes)
    requires GroupOf(c).UseKey? || GroupOf(c).Rewrap?
    ensures AuthorizeGroup(f, s.objects, auth, c, d) == AuthorizeGroup(f, Visible(auth, s.objects), auth, c, d)
  {
    var seen := Visible(auth, s.objects);
    forall k, capability
      ensures AuthorizeObject(s.objects, auth, k, capability) == AuthorizeObject(seen, auth, k, capability)
    {
    }
  }

  lemma AuthorizeOtherAlike(f: Foreign, s: Durable, auth: SessionAuthorization, c: CommandCode, d: bytes)
    requires Covered(GroupOf(c)) && !GroupOf(c).UseKey? && !GroupOf(c).Rewrap?
    ensures AuthorizeGroup(f, s.objects, auth, c, d) == AuthorizeGroup(f, Visible(auth, s.objects), auth, c, d)
  {
  }

  lemma AuthorizeAlike(f: Foreign, s: Durable, auth: SessionAuthorization, c: CommandCode, d: bytes)
    requires Covered(GroupOf(c))
    ensures AuthorizeGroup(f, s.objects, auth, c, d) == AuthorizeGroup(f, Visible(auth, s.objects), auth, c, d)
  {
    if GroupOf(c).UseKey? || GroupOf(c).Rewrap? {
      AuthorizeUseAlike(f, s, auth, c, d);
    } else {
      AuthorizeOtherAlike(f, s, auth, c, d);
    }
  }

  lemma UseAlike(f: Foreign, config: DeviceConfig, s: Durable, auth: SessionAuthorization, c: CommandCode, use: KeyUse,
                 d: bytes, env: Env)
    requires KeyUseOf(c) == Some(use)
    ensures HandleUse(f, config, s, auth, c, use, d, env) == HandleUse(f, config, Erased(auth, s), auth, c, use, d, env)
  {
    var id := DecodeUse(f.prehash, c, use, d);
    if id.Ok? {
      LookupsAlike(config, s, auth, ObjectKey(use.objectType, id.value), use.capability);
    }
  }

  lemma RewrapAlike(f: Foreign, config: DeviceConfig, s: Durable, auth: SessionAuthorization, d: bytes, env: Env)
    ensures HandleRewrap(f, config, s, auth, d, env) == HandleRewrap(f, config, Erased(auth, s), auth, d, env)
  {
    if |d| == 40 {
      LookupsAlike(config, s, auth, ObjectKey(OtpAeadKey, DecodeU16(d[..2])), REWRAP_FROM_OTP_AEAD_KEY);
      LookupsAlike(config, s, auth, ObjectKey(OtpAeadKey, DecodeU16(d[2..4])), REWRAP_TO_OTP_AEAD_KEY);
    }
  }

  lemma OtherReadAlike(f: Foreign, config: DeviceConfig, s: Durable, auth: SessionAuthorization, c: CommandCode, d: bytes, env: Env)
    requires Covered(GroupOf(c)) && ReadOnly(GroupOf(c)) && AuthorizeGroup(f, s.objects, auth, c, d).Ok?
    requires !GroupOf(c).UseKey? && !GroupOf(c).Rewrap? && !GroupOf(c).ListAll?
    ensures HandleRead(f, config, s, auth, c, d, env) == HandleRead(f, config, Erased(auth, s), auth, c, d, env)
  {
  }

  lemma ReadAlike(f: Foreign, config: DeviceConfig, s: Durable, auth: SessionAuthorization, c: CommandCode, d: bytes, env: Env)
    requires Covered(GroupOf(c)) && ReadOnly(GroupOf(c)) && AuthorizeGroup(f, s.objects, auth, c, d).Ok?
    ensures HandleRead(f, config, s, auth, c, d, env) == HandleRead(f, config, Erased(auth, s), auth, c, d, env)
  {
    match GroupOf(c)
    case ListAll =>
      var filters := DecodeFilters(NO_FILTERS, d);
      if filters.Ok? {
        ListAlike(auth, filters.value, s.objects, KEY_SPACE);
      }
    case UseKey(use) =>
      UseAlike(f, config, s, auth, c, use, d, env);
    case Rewrap =>
      RewrapAlike(f, config, s, auth, d, env);
    case _ =>
      OtherReadAlike(f, config, s, auth, c, d, env);
  }

  lemma AgreedSecretAlike(f: Foreign, config: DeviceConfig, s: Durable, v: Volatile.Store, auth: SessionAuthorization,
                          source: Source, peer: bytes)
    ensures AgreedSecret(f, config, s, v, auth, source, peer) == AgreedSecret(f, config, Erased(auth, s), v, auth, source, peer)
  {
    if source.FromAsymmetric? {
      LookupsAlike(config, s, auth, ObjectKey(AsymmetricKey, source.id), DERIVE_ECDH);
    }
  }

  lemma KdfSecretAlike(config: DeviceConfig, s: Durable, v: Volatile.Store, auth: SessionAuthorization, source: Source)
    ensures KdfSecret(config, s, v, auth, source) == KdfSecret(config, Erased(auth, s), v, auth, source)
  {
    if source.FromSymmetric? {
      LookupsAlike(config, s, auth, ObjectKey(SymmetricKey, source.id), ENCRYPT_ECB);
    }
  }

  lemma AgreementAlike(f: Foreign, config: DeviceConfig, s: Durable, v: Volatile.Store, auth: SessionAuthorization, p: bytes)
    ensures DeriveAgreement(f, config, s, v, auth, p) == DeriveAgreement(f, config, Erased(auth, s), v, auth, p)
  {
    if DecodeResultHeader(p).Ok? && DecodeSource(p[4..]).Ok? {
      var part := DecodeSource(p[4..]).value;
      if |part.rest| >= 2 {
        AgreedSecretAlike(f, config, s, v, auth, part.source, part.rest[2..]);
      }
    }
  }

  lemma CounterKdfAlike(f: Foreign, config: DeviceConfig, s: Durable, v: Volatile.Store, auth: SessionAuthorization, p: bytes)
    ensures DeriveCounterKdf(f, config, s, v, auth, p) == DeriveCounterKdf(f, config, Erased(auth, s), v, auth, p)
  {
    if DecodeResultHeader(p).Ok? && DecodeSource(p[4..]).Ok? {
      KdfSecretAlike(config, s, v, auth, DecodeSource(p[4..]).value.source);
    }
  }

  lemma DeriveAlike(f: Foreign, config: DeviceConfig, s: Durable, v: Volatile.Store, auth: SessionAuthorization,
                    operation: byte, p: bytes)
    ensures Derive(f, config, s, v, auth, operation, p) == Derive(f, config, Erased(auth, s), v, auth, operation, p)
  {
    AgreementAlike(f, config, s, v, auth, p);
    CounterKdfAlike(f, config, s, v, auth, p);
  }

  lemma VolatileAlike(f: Foreign, config: DeviceConfig, s: Durable, v: Option<Volatile.Store>, auth: SessionAuthorization, d: bytes, env: Env)
    ensures HandleVolatile(f, config, s, v, auth, d, env) == HandleVolatile(f, config, Erased(auth, s), v, auth, d, env)
  {
    if v.Some? && d != [] {
      DeriveAlike(f, config, s, v.value, auth, d[0], d[1..]);
    }
  }

  lemma ChangeAlike(f: Foreign, config: DeviceConfig, s: Durable, v: Option<Volatile.Store>, auth: SessionAuthorization,
                    c: CommandCode, d: bytes, env: Env)
    requires Covered(GroupOf(c)) && !ReadOnly(GroupOf(c)) && AuthorizeGroup(f, s.objects, auth, c, d).Ok?
    ensures HandleChange(f, config, s, v, auth, c, d, env) == HandleChange(f, config, Erased(auth, s), v, auth, c, d, env)
  {
    if GroupOf(c).UseVolatile? {
      VolatileAlike(f, config, s, v, auth, d, env);
    }
  }

  predicate CoveredFrame(request: Frame) {
    IsCommand(request.command) ==> Covered(GroupOf(request.command))
  }

  lemma HandleAlike(f: Foreign, config: DeviceConfig, s: Durable, v: Option<Volatile.Store>, auth: SessionAuthorization,
                    c: CommandCode, d: bytes, env: Env)
    requires Covered(GroupOf(c)) && AuthorizeGroup(f, s.objects, auth, c, d).Ok?
    ensures Handle(f, config, s, v, auth, c, d, env) == Handle(f, config, Erased(auth, s), v, auth, c, d, env)
  {
    if ReadOnly(GroupOf(c)) {
      ReadAlike(f, config, s, auth, c, d, env);
    } else {
      ChangeAlike(f, config, s, v, auth, c, d, env);
    }
  }

  lemma ResultAlike(f: Foreign, config: DeviceConfig, s: Durable, v: Option<Volatile.Store>, auth: SessionAuthorization,
                    request: Frame, env: Env)
    requires CoveredFrame(request)
    ensures ExecuteResult(f, config, s, v, auth, request, env) == ExecuteResult(f, config, Erased(auth, s), v, auth, request, env)
  {
    var c := FromByte(request.command);
    if c.Some? {
      AuthorizeAlike(f, s, auth, c.value, request.data);
      if AuthorizeGroup(f, s.objects, auth, c.value, request.data).Ok? {
        HandleAlike(f, config, s, v, auth, c.value, request.data, env);
      }
    }
  }

  // ----- effects

  /** What a covered command may do to the store: replace or remove an object it can see. */
  predicate OnVisible(auth: SessionAuthorization, objects: ObjectMap, e: Effect) {
    match e
    case WriteObject(r) =>
      var k := r.info.Key();
      k in objects && auth.CanSee(objects[k].info) && SamePowers(r.info, objects[k].info)
    case RemoveObject(k) => k in objects && auth.CanSee(objects[k].info)
    case Reset(_) => false
    case _ => true
  }

  lemma ChangeKeyOnVisible(f: Foreign, config: DeviceConfig, s: Durable, auth: SessionAuthorization, c: CommandCode, d: bytes)
    requires f.Lawful() && SoundStore(f.keys, s.objects) && GroupOf(c).ChangeKey?
    requires AuthorizeGroup(f, s.objects, auth, c, d).Ok? && HandleChangeKey(f, config, s, d).Ok?
    ensures OnVisible(auth, s.objects, HandleChangeKey(f, config, s, d).value.effect)
  {
    ChangeKeyDiscipline(f, config, s, auth, d);
    var q := DecodeChange(d).value;
    var k := ObjectKey(AuthenticationKey, q.id);
    AuthorizedIsVisible(s.objects, auth, k, CHANGE_AUTHENTICATION_KEY);
    ChangedKey(f, config, s, d);
  }

  lemma ChangedKey(f: Foreign, config: DeviceConfig, s: Durable, d: bytes)
    requires f.Lawful() && SoundStore(f.keys, s.objects) && HandleChangeKey(f, config, s, d).Ok?
    ensures
      var e := HandleChangeKey(f, config, s, d).value.effect;
      e.WriteObject? && e.record.info.Key() == ObjectKey(AuthenticationKey, DecodeChange(d).value.id)
  {
    var q := DecodeChange(d).value;
    var n := AuthenticationKeyLength(q.algorithm).value;
    var key := WrappedObjects.ParseAuthentication(f.keys, q.algorithm, q.material).value;
    var k := ObjectKey(AuthenticationKey, q.id);
    assert s.objects[k].info.Key() == k;
    CheckWriteKeeps(f.keys, ObjectRecord(s.objects[k].info.(algorithm := q.algorithm, length := n + 8), Authentication(key)));
  }

  lemma CoveredOnVisible(f: Foreign, config: DeviceConfig, s: Durable, v: Option<Volatile.Store>, auth: SessionAuthorization,
                         c: CommandCode, d: bytes, env: Env)
    requires f.Lawful() && SoundStore(f.keys, s.objects) && Covered(GroupOf(c)) && !ReadOnly(GroupOf(c))
    requires AuthorizeGroup(f, s.objects, auth, c, d).Ok? && HandleChange(f, config, s, v, auth, c, d, env).Ok?
    ensures OnVisible(auth, s.objects, HandleChange(f, config, s, v, auth, c, d, env).value.effect)
  {
    if GroupOf(c).ChangeKey? {
      ChangeKeyOnVisible(f, config, s, auth, c, d);
    } else if GroupOf(c).UseVolatile? {
      VolatileDiscipline(f, config, s, v, auth, d, env);
    }
  }

  lemma ResultOnVisible(f: Foreign, config: DeviceConfig, s: Durable, v: Option<Volatile.Store>, auth: SessionAuthorization,
                        request: Frame, env: Env)
    requires f.Lawful() && SoundStore(f.keys, s.objects) && CoveredFrame(request)
    ensures OnVisible(auth, s.objects, EffectOf(ExecuteResult(f, config, s, v, auth, request, env)))
  {
    var r := ExecuteResult(f, config, s, v, auth, request, env);
    if r.Ok? && !ReadOnly(GroupOf(request.command)) {
      CoveredOnVisible(f, config, s, v, auth, request.command, request.data, env);
    }
  }

  lemma WriteCommutes(auth: SessionAuthorization, objects: ObjectMap, r: ObjectRecord, written: ObjectRecord)
    requires OnVisible(auth, objects, WriteObject(r)) && SamePowers(written.info, r.info)
    ensures Visible(auth, objects[r.info.Key() := written]) == Visible(auth, objects)[r.info.Key() := written]
  {
  }

  lemma RemoveCommutes(auth: SessionAuthorization, objects: ObjectMap, k: ObjectKey)
    ensures Visible(auth, objects - {k}) == Visible(auth, objects) - {k}
  {
  }

  /** Erasing and changing commute, and the change leaves every hidden object alone. */
  lemma EffectCommutes(keys: StaticKeys, auth: SessionAuthorization, s: Durable, e: Effect)
    requires OnVisible(auth, s.objects, e)
    ensures Erased(auth, ApplyDurable(keys, s, e)) == ApplyDurable(keys, Erased(auth, s), e)
    ensures
      var objects := ApplyDurable(keys, s, e).objects;
      forall k | k in s.objects && !auth.CanSee(s.objects[k].info) :: k in objects && objects[k] == s.objects[k]
  {
    match e
    case WriteObject(r) => WriteCommutes(auth, s.objects, r, Sequenced(s.generations, r));
    case RemoveObject(k) => RemoveCommutes(auth, s.objects, k);
    case _ =>
  }

  // ----- one command, and whole conversations

  function Erase(auth: SessionAuthorization, d: Device): Device {
    d.(durable := Erased(auth, d.durable))
  }

  lemma SettleErased(f: Foreign, before: Device, after: Device, auth: SessionAuthorization, c: Option<CommandCode>,
                     request: Frame, result: Result<bytes>)
    ensures Settle(f, Erase(auth, before), Erase(auth, after), auth, c, request, result)
            == Erase(auth, Settle(f, before, after, auth, c, request, result))
  {
  }

  lemma InnerErased(f: Foreign, d: Device, v: Option<Volatile.Store>, auth: SessionAuthorization, request: Frame, r: Result<Done>)
    requires OnVisible(auth, d.durable.objects, EffectOf(r))
    ensures
      var x := InnerWith(f, d, v, auth, request, r);
      InnerWith(f, Erase(auth, d), v, auth, request, r) == x.(device := Erase(auth, x.device))
  {
    EffectCommutes(f.factoryKeys, auth, d.durable, EffectOf(r));
    SettleErased(f, d, AfterEffect(f, d, r), auth, SupportedFromByte(d.config, request.command), request, SizeChecked(r));
  }

  /** The response and the effect on what the session sees are as if hidden objects were absent. */
  lemma HiddenErasable(f: Foreign, d: Device, v: Option<Volatile.Store>, auth: SessionAuthorization, request: Frame, env: Env)
    requires f.Lawful() && SoundStore(f.keys, d.durable.objects) && CoveredFrame(request)
    ensures
      var x := ExecuteInner(f, d, v, auth, request, env);
      ExecuteInner(f, Erase(auth, d), v, auth, request, env) == x.(device := Erase(auth, x.device))
  {
    ResultAlike(f, d.config, d.durable, v, auth, request, env);
    ResultOnVisible(f, d.config, d.durable, v, auth, request, env);
    InnerErased(f, d, v, auth, request, ExecuteResult(f, d.config, d.durable, v, auth, request, env));
  }

  datatype Asked = Asked(request: Frame, env: Env)

  /** The responses to a list of commands of one session. */
  function Answers(f: Foreign, d: Device, v: Option<Volatile.Store>, auth: SessionAuthorization, talk: seq<Asked>): seq<Frame>
    decreases |talk|
  {
    if talk == [] then []
    else
      var x := ExecuteInner(f, d, v, auth, talk[0].request, talk[0].env);
      [x.response] + Answers(f, x.device, x.objects, auth, talk[1..])
  }

  lemma ExecuteKeepsInv(f: Foreign, d: Device, v: Option<Volatile.Store>, auth: SessionAuthorization, request: Frame, env: Env)
    requires f.Lawful() && DeviceInv(f, d)
    ensures DeviceInv(f, ExecuteInner(f, d, v, auth, request, env).device)
  {
    var r := ExecuteResult(f, d.config, d.durable, v, auth, request, env);
    if r.Ok? {
      CommandDiscipline(f, d.config, d.durable, v, auth, request, env);
    }
    InnerKeepsInv(f, d, v, auth, request, r);
  }

  /** A session that only reads, uses, lists and deletes cannot tell, over any number of
      commands, whether hidden objects exist. */
  lemma {:induction false} HiddenInConversations(f: Foreign, d: Device, v: Option<Volatile.Store>, auth: SessionAuthorization,
                                                 talk: seq<Asked>)
    requires f.Lawful() && DeviceInv(f, d)
    requires forall a | a in talk :: CoveredFrame(a.request)
    ensures Answers(f, Erase(auth, d), v, auth, talk) == Answers(f, d, v, auth, talk)
    decreases |talk|
  {
    if talk != [] {
      assert talk[0] in talk;
      var x := ExecuteInner(f, d, v, auth, talk[0].request, talk[0].env);
      HiddenErasable(f, d, v, auth, talk[0].request, talk[0].env);
      ExecuteKeepsInv(f, d, v, auth, talk[0].request, talk[0].env);
      HiddenInConversations(f, x.device, x.objects, auth, talk[1..]);
    }
  }

  // ----- the boundary

  /** Asking for a given identifier reveals a hidden object exactly when one has that key. */
  lemma CreationRevealsExactly(objects: ObjectMap, auth: SessionAuthorization, t: ObjectType, requested: u16, draws: seq<u16>)
    requires requested != 0 && requested != 0xffff
    ensures
      var k := ObjectKey(t, requested);
      ResolveId(objects, t, requested, draws) != ResolveId(Visible(auth, objects), t, requested, draws)
      <==> k in objects && !auth.CanSee(objects[k].info)
  {
  }

  /** Authorizing a wrapped export treats a hidden target as absent, except exactly when the
      session sees the wrap key but may not export with it. */
  lemma ExportRevealsExactly(f: Foreign, objects: ObjectMap, auth: SessionAuthorization, c: CommandCode, d: bytes)
    requires GroupOf(c).Export? && DecodeExport(d, GroupOf(c).rsa).Ok?
    ensures
      var q := DecodeExport(d, GroupOf(c).rsa).value;
      var wrap := ObjectKey(GroupOf(c).wrapType, q.wrapId);
      AuthorizeGroup(f, objects, auth, c, d) != AuthorizeGroup(f, Visible(auth, objects), auth, c, d)
      <==> && q.target in objects && !auth.CanSee(objects[q.target].info)
           && wrap in objects && auth.CanSee(objects[wrap].info)
           && auth.AuthorizeUse(objects[wrap].info, EXPORT_WRAPPED, EXPORT_WRAPPED).Err?
  {
  }
}
