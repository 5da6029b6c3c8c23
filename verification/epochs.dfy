/** The persistent-change flag, the epoch, and atomicity of commands. */
module Epochs {
  import opened Bytes
  import opened Errors
  import opened Frames
  import opened Envelope
  import opened Objects
  import opened Protocol
  import Cmd
  import opened Options
  import opened Authorization
  import opened Store
  import opened ForeignCode
  import opened Commands
  import opened Discipline
  import opened Machine
  import opened Persistence
  import opened Trace
  import opened DeviceRuns
  import Volatile

  /** An effect on state answers with little data, so its size check never fails. */
  lemma EffectsFit(f: Foreign, s: Durable, v: Option<Volatile.Store>, auth: SessionAuthorization, c: CommandCode, d: Done)
    requires Permitted(f, s, v, auth, c, d) && !d.effect.NoEffect?
    ensures SizeChecked(Ok(d)) == Ok(d.data)
    ensures ChangesDurable(d.effect) ==> ChangesPersistentState(c)
  {
    FitsExactly(|d.data|);
  }

  // ----- atomicity

  /** Everything but the audit log is as it was. */
  predicate Untouched(a: Durable, b: Durable) {
    b == a.(log := b.log)
  }

  lemma ErrorResponse(command: byte, r: Result<bytes>)
    ensures ResultFrame(command, r).command == ERROR_COMMAND <==> r.Err?
  {
  }

  lemma RefusedEarly(f: Foreign, d: Device, entry: SessionEntry, inner: Frame, r: Result<Done>)
    requires !Handled(d, entry.authorization, inner)
    ensures RunWith(f, d, entry, inner, r).device == d
    ensures RunWith(f, d, entry, inner, r).objects == Some(entry.objects)
    ensures RunWith(f, d, entry, inner, r).response.command == ERROR_COMMAND
  {
  }

  lemma HandledRun(f: Foreign, d: Device, entry: SessionEntry, inner: Frame, r: Result<Done>)
    requires Handled(d, entry.authorization, inner)
    ensures
      var done := RunWith(f, d, entry, inner, r);
      && OnlyLogged(AfterEffect(f, d, r), done.device)
      && done.device.sessions == AfterEffect(f, d, r).sessions
      && done.objects == Some(ApplyVolatile(entry.objects, EffectOf(r)))
      && done.response == ResultFrame(inner.command, SizeChecked(r))
      && (SizeChecked(r).Ok? && SupportedFromByte(d.config, inner.command).Some? && ChangesPersistentState(inner.command)
          ==> done.device.dirty)
  {
    SettleOnlyLogs(f, d, AfterEffect(f, d, r), entry.authorization, SupportedFromByte(d.config, inner.command), inner,
                   SizeChecked(r));
  }

  /** A command answered with an error changed no object, generation, option, device key or
      volatile object: the late size check can only refuse commands that change nothing. */
  lemma CommandsAreAtomic(f: Foreign, d: Device, entry: SessionEntry, inner: Frame, r: Result<Done>)
    requires ResultPermitted(f, d, entry, inner, r)
    requires RunWith(f, d, entry, inner, r).response.command == ERROR_COMMAND
    ensures Untouched(d.durable, RunWith(f, d, entry, inner, r).device.durable)
    ensures RunWith(f, d, entry, inner, r).objects == Some(entry.objects)
    ensures RunWith(f, d, entry, inner, r).device.sessions == d.sessions
  {
    if Handled(d, entry.authorization, inner) {
      HandledRun(f, d, entry, inner, r);
      ErrorResponse(inner.command, SizeChecked(r));
      if r.Ok? && !r.value.effect.NoEffect? {
        EffectsFit(f, d.durable, Some(entry.objects), entry.authorization, inner.command, r.value);
      }
    } else {
      RefusedEarly(f, d, entry, inner, r);
    }
  }

  /** The same of the command as the device runs it. */
  lemma ErrorsChangeNothing(f: Foreign, d: Device, entry: SessionEntry, inner: Frame, env: Env)
    requires f.Lawful() && SoundStore(f.keys, d.durable.objects)
    requires RunInner(f, d, entry, inner, env).response.command == ERROR_COMMAND
    ensures Untouched(d.durable, RunInner(f, d, entry, inner, env).device.durable)
    ensures RunInner(f, d, entry, inner, env).objects == Some(entry.objects)
    ensures RunInner(f, d, entry, inner, env).device.sessions == d.sessions
  {
    var r := ResultIsPermitted(f, d, entry, inner, env);
    CommandsAreAtomic(f, d, entry, inner, r);
  }

  // ----- effects

  lemma RanEffect(f: Foreign, d: Device, h: Happening, env: Env)
    requires h.Runs? && Plausible(f, d, h, env)
    ensures Untouched(ApplyDurable(f.factoryKeys, d.durable, Applied(d, h)), Ran(f, d, h).durable)
  {
    var entry := d.sessions[h.sid];
    var without := Without(d, h.sid);
    if Handled(without, entry.authorization, h.inner) {
      HandledRun(f, without, entry, h.inner, h.r);
    } else {
      RefusedEarly(f, without, entry, h.inner, h.r);
    }
  }

  lemma ReplayEffect(f: Foreign, d: Device, h: Happening, env: Env)
    requires Plausible(f, d, h, env)
    ensures Changes(f.factoryKeys, d.durable, Applied(d, h), Replay(f, d, h).durable)
  {
    if h.Runs? {
      RanEffect(f, d, h, env);
    } else {
      HandshakesOnlyLog(f, d, h, env);
    }
  }

  /** A new option table keeps what was fixed. */
  ghost predicate OptionsLatch(o: DeviceOptions, e: Effect) {
    e.ReplaceOptions? ==> Latched(o, e.options)
  }

  /** What a change does, said of the states before and after. */
  ghost predicate Changes(keys: StaticKeys, d: Durable, e: Effect, d': Durable) {
    Untouched(ApplyDurable(keys, d, e), d') && OptionsLatch(d.options, e) && (e.WriteObject? ==> Modest(e.record))
  }

  lemma RequestChanges(f: Foreign, d: Device, encoded: bytes, env: Env)
    requires f.Lawful() && DeviceInv(f, d)
    ensures Changes(f.factoryKeys, d.durable, RequestEffect(f, d, encoded, env), HandleEncoded(f, d, encoded, env).0.durable)
  {
    var start, h := EncodedIsHappening(f, d, encoded, env);
    ReplayEffect(f, start, h, env);
  }

  /** Besides its log, durable state changes by the one effect of the input. */
  lemma StepEffect(f: Foreign, d: Device, i: Input)
    requires f.Lawful() && DeviceInv(f, d)
    ensures Changes(f.factoryKeys, d.durable, EffectAt(f, d, i), Step(f, d, i).durable)
  {
    if i.Request? {
      RequestChanges(f, d, i.encoded, i.env);
    } else if i.Restart? {
      RestartLosesOnlySessions(f, d);
    }
  }

  // ----- the flag

  lemma RanMarks(f: Foreign, d: Device, h: Happening, env: Env)
    requires h.Runs? && Plausible(f, d, h, env)
    ensures Ran(f, d, h).epoch == d.epoch && (d.dirty ==> Ran(f, d, h).dirty)
    ensures Ran(f, d, h).durable != d.durable ==> Ran(f, d, h).dirty
  {
    var entry := d.sessions[h.sid];
    var without := Without(d, h.sid);
    if Handled(without, entry.authorization, h.inner) {
      HandledRun(f, without, entry, h.inner, h.r);
      if h.r.Ok? && ChangesDurable(h.r.value.effect) {
        EffectsFit(f, d.durable, Some(entry.objects), entry.authorization, h.inner.command, h.r.value);
      } else {
        assert AfterEffect(f, without, h.r).durable == d.durable;
      }
    } else {
      RefusedEarly(f, without, entry, h.inner, h.r);
    }
  }

  /** The commands that change durable state when they succeed. */
  const CHANGING: set<byte> := {
    0x08, 0x42, 0x44, 0x45, 0x46, 0x4b, 0x4c, 0x4f, 0x52, 0x58, 0x5a, 0x5b, 0x5e, 0x65, 0x66, 0x67, 0x6c, 0x6d, 0x6e, 0x73,
    0x75, 0x77}

  /** A command that is not held back sets the flag exactly when it is one of those and succeeded, or
      when its audit entry found room. */
  lemma MarksExactly(f: Foreign, d: Device, v: Option<Volatile.Store>, auth: SessionAuthorization, request: Frame, r: Result<Done>)
    requires
      var c := SupportedFromByte(d.config, request.command);
      !(c.Some? && Gated(c.value) && ForcedAndFull(d))
    ensures
      var c := SupportedFromByte(d.config, request.command);
      InnerWith(f, d, v, auth, request, r).device.dirty
      <==> || d.dirty
           || (c.Some? && c.value in CHANGING && r.Ok? && |r.value.data| <= 8172)
           || (c.Some? && ShouldAudit(d.durable.options, c.value)
               && |AfterEffect(f, d, r).durable.log.entries| < d.config.logCapacity)
  {
    AnswerExactly(f, d, v, auth, request, r);
  }

  /** The answer of a command that is not held back: what the handler said, or WrongLength for more
      data than an envelope takes. */
  lemma AnswerExactly(f: Foreign, d: Device, v: Option<Volatile.Store>, auth: SessionAuthorization, request: Frame, r: Result<Done>)
    requires
      var c := SupportedFromByte(d.config, request.command);
      !(c.Some? && Gated(c.value) && ForcedAndFull(d))
    ensures
      InnerWith(f, d, v, auth, request, r).response
      == if r.Err? then ErrorFrame(r.error)
         else if |r.value.data| <= 8172 then Response(request.command, r.value.data)
         else ErrorFrame(WrongLength)
    ensures SizeChecked(r).Ok? <==> r.Ok? && |r.value.data| <= 8172
  {
    if r.Ok? {
      FitsExactly(|r.value.data|);
    }
  }

  /** Every frame that changes durable state leaves the flag set. */
  lemma FramesMark(f: Foreign, d: Device, encoded: bytes, env: Env)
    requires f.Lawful() && DeviceInv(f, d)
    ensures
      var d' := HandleEncoded(f, d, encoded, env).0;
      && d'.epoch == d.epoch && (d.dirty ==> d'.dirty)
      && (d'.durable != d.durable ==> d'.dirty)
  {
    var start, h := EncodedIsHappening(f, d, encoded, env);
    if h.Runs? {
      RanMarks(f, start, h, env);
    } else {
      HandshakesOnlyLog(f, start, h, env);
    }
  }

  // ----- the epoch

  /** The epoch can still advance after this request. */
  predicate CanCommit(f: Foreign, d: Device, i: Input) {
    i.Request? ==> TakePersistentChange(HandleEncoded(f, d, i.encoded, i.env).0).1.Ok?
  }

  /** Between requests nothing is pending, and the epoch moves with every durable change. */
  lemma StepEpoch(f: Foreign, d: Device, i: Input)
    requires f.Lawful() && DeviceInv(f, d) && !d.dirty && CanCommit(f, d, i)
    ensures
      var d' := Step(f, d, i);
      && !d'.dirty
      && (d'.epoch == d.epoch || d'.epoch == d.epoch + 1)
      && (d'.epoch == d.epoch ==> d'.durable == d.durable)
  {
    if i.Request? {
      FramesMark(f, d, i.encoded, i.env);
    } else if i.Restart? {
      RestartLosesOnlySessions(f, d);
    }
  }

  ghost predicate RunCommits(f: Foreign, d: Device, inputs: seq<Input>)
    decreases |inputs|
  {
    inputs == [] || (CanCommit(f, d, inputs[0]) && RunCommits(f, Step(f, d, inputs[0]), inputs[1..]))
  }

  /** Along a run epochs never fall, across resets too, and equal epochs mean equal durable state. */
  lemma {:induction false} EpochSound(f: Foreign, d: Device, inputs: seq<Input>)
    requires f.Lawful() && DeviceInv(f, d) && !d.dirty && RunCommits(f, d, inputs)
    ensures
      var d' := Run(f, d, inputs);
      && !d'.dirty && d.epoch <= d'.epoch
      && (d'.epoch == d.epoch ==> d'.durable == d.durable)
    decreases |inputs|
  {
    if inputs != [] {
      StepKeepsInv(f, d, inputs[0]);
      StepEpoch(f, d, inputs[0]);
      EpochSound(f, Step(f, d, inputs[0]), inputs[1..]);
    }
  }

  /** A run shorter than what is left of the epochs always commits, so nothing need be assumed
      of the commits themselves. */
  lemma {:induction false} EarlyRunsCommit(f: Foreign, d: Device, inputs: seq<Input>)
    requires f.Lawful() && DeviceInv(f, d) && !d.dirty && d.epoch + |inputs| < U64_MODULUS
    ensures RunCommits(f, d, inputs)
    decreases |inputs|
  {
    if inputs != [] {
      EarlyCommits(f, d, inputs[0]);
      StepKeepsInv(f, d, inputs[0]);
      StepEpoch(f, d, inputs[0]);
      EarlyRunsCommit(f, Step(f, d, inputs[0]), inputs[1..]);
    }
  }

  lemma EarlyCommits(f: Foreign, d: Device, i: Input)
    requires f.Lawful() && DeviceInv(f, d) && d.epoch + 1 < U64_MODULUS
    ensures CanCommit(f, d, i)
  {
    if i.Request? {
      FramesMark(f, d, i.encoded, i.env);
      CommitExactly(HandleEncoded(f, d, i.encoded, i.env).0);
    }
  }

  /** Before the largest epoch is in reach, epochs tell durable states apart. */
  lemma EpochSoundEarly(f: Foreign, d: Device, inputs: seq<Input>)
    requires f.Lawful() && DeviceInv(f, d) && !d.dirty && d.epoch + |inputs| < U64_MODULUS
    ensures
      var d' := Run(f, d, inputs);
      && !d'.dirty && d.epoch <= d'.epoch
      && (d'.epoch == d.epoch ==> d'.durable == d.durable)
  {
    EarlyRunsCommit(f, d, inputs);
    EpochSound(f, d, inputs);
  }

  /** The flag commits exactly when the epoch has room; with no room the change stays
      pending under the old epoch and the request fails. */
  lemma CommitExactly(d: Device)
    ensures TakePersistentChange(d).1.Ok? <==> !d.dirty || d.epoch < U64_MODULUS - 1
    ensures TakePersistentChange(d).1.Err? ==> TakePersistentChange(d).0 == d
  {
  }

  /** Exactly when a request can leave changed state under an unchanged epoch: when the epoch
      was already the largest one. */
  lemma StaleEpochExactly(f: Foreign, d: Device, encoded: bytes, env: Env)
    requires f.Lawful() && DeviceInv(f, d) && !d.dirty
    ensures
      var d' := Step(f, d, Request(encoded, env));
      d'.durable != d.durable ==> (d'.epoch == d.epoch <==> d.epoch == U64_MODULUS - 1)
  {
    FramesMark(f, d, encoded, env);
    CommitExactly(HandleEncoded(f, d, encoded, env).0);
  }

  /** A request that opens a session with a key, giving nothing else. */
  function OpenRequest(keyId: u16): Frame {
    Frame(Cmd.CreateSession, EncodeU16(keyId))
  }

  lemma AuditedOpenLogs(f: Foreign, d: Device, keyId: u16, env: Env)
    requires AuthorizationOf(d.durable.objects, keyId).Ok?
    requires ShouldAudit(d.durable.options, Cmd.CreateSession) && !LogFullNow(d)
    ensures
      var after := CreateSession(f, d, OpenRequest(keyId), env).0;
      |after.durable.log.entries| == |d.durable.log.entries| + 1 && after.dirty && after.epoch == d.epoch
  {
    var request := OpenRequest(keyId);
    assert request.data[..2] == EncodeU16(keyId);
    var auth := AuthorizationOf(d.durable.objects, keyId).value;
    var key := d.durable.objects[ObjectKey(AuthenticationKey, keyId)].material.key;
    var made := OpenSession(f, d, auth, key, request.data[2..], env);
    assert AfterOpen(d, made).durable == d.durable;
  }

  /** At the largest epoch the promise does fail: opening a session that is audited, with room in
      the log, leaves a changed log under the old epoch, with the change pending. */
  lemma StaleEpochHappens(f: Foreign, d: Device, keyId: u16, env: Env)
    requires d.epoch == U64_MODULUS - 1
    requires AuthorizationOf(d.durable.objects, keyId).Ok?
    requires ShouldAudit(d.durable.options, Cmd.CreateSession) && !LogFullNow(d)
    ensures
      var d' := Step(f, d, Request(Encode(OpenRequest(keyId)), env));
      d'.epoch == d.epoch && d'.durable != d.durable && d'.dirty
  {
    var met := Expire(d, env.now);
    AuditedOpenLogs(f, met, keyId, env);
    EncodedCreate(f, d, OpenRequest(keyId), env);
  }

  /** Such a device: the factory state with CreateSession audited, at the largest epoch. */
  function LastEpoch(d: Device): Device {
    d.(epoch := U64_MODULUS - 1,
       durable := d.durable.(options := d.durable.options.(commandAudit := map[Cmd.CreateSession := ON])))
  }

  /** It is sound, and the image it saves restores to it; and there the promise fails. */
  lemma StaleEpochWitness(f: Foreign, config: DeviceConfig, serialized: bytes, env: Env)
    requires f.Lawful() && FactoryDefault(f, config, serialized).Ok? && config.logCapacity > 0
    ensures
      var d := LastEpoch(FactoryDefault(f, config, serialized).value);
      var d' := Step(f, d, Request(Encode(OpenRequest(FACTORY_KEY.id)), env));
      && DeviceInv(f, d) && !d.dirty && Restore(f, config, Save(d)) == Ok(d)
      && d'.epoch == d.epoch && d'.durable != d.durable
  {
    var start := FactoryDefault(f, config, serialized).value;
    var d := LastEpoch(start);
    FactoryIsSound(f, config.logCapacity, start.durable.deviceKey);
    assert DeviceInv(f, d);
    SaveRestore(f, config, d);
    StaleEpochHappens(f, d, FACTORY_KEY.id, env);
  }
}
