/** Invariants and accounting over whole runs of the device. */
module DeviceRuns {
  import opened Bytes
  import opened Errors
  import opened Algorithms
  import opened Frames
  import opened Objects
  import opened Protocol
  import Cmd
  import opened Options
  import opened Authorization
  import opened Store
  import opened ForeignCode
  import opened Commands
  import opened Discipline
  import opened Machine
  import opened Persistence
  import opened Trace
  import Audit
  import Volatile

  /** What can happen to the device: a request, the loss of all sessions, or a restart
      from the image it saves. */
  datatype Input = Request(encoded: bytes, env: Env) | DropSessions | Restart

  function Step(f: Foreign, d: Device, i: Input): Device {
    match i
    case Request(encoded, env) => ExecuteObserving(f, d, encoded, env).0
    case DropSessions => ClearSessions(d)
    case Restart => Restarted(f, d)
  }

  function Run(f: Foreign, d: Device, inputs: seq<Input>): Device
    decreases |inputs|
  {
    if inputs == [] then d else Run(f, Step(f, d, inputs[0]), inputs[1..])
  }

  /** The sessions that a request meets: a malformed one expires none. */
  function Met(d: Device, i: Input): Device {
    if i.Request? && Parse(i.encoded).Ok? then Expire(d, i.env.now) else d
  }

  /** The effect of the command that an input runs. */
  function EffectAt(f: Foreign, d: Device, i: Input): Effect {
    match i
    case Request(encoded, env) => RequestEffect(f, d, encoded, env)
    case _ => NoEffect
  }

  ghost predicate NeverResets(f: Foreign, d: Device, inputs: seq<Input>)
    decreases |inputs|
  {
    inputs == [] || (!EffectAt(f, d, inputs[0]).Reset? && NeverResets(f, Step(f, d, inputs[0]), inputs[1..]))
  }

  /** Taking the flag changes neither durable state nor sessions. */
  lemma CommitKeeps(f: Foreign, d: Device, i: Input)
    requires i.Request?
    ensures
      var a, b := HandleEncoded(f, d, i.encoded, i.env).0, Step(f, d, i);
      a.durable == b.durable && a.sessions == b.sessions
  {
  }

  // ----- the durable invariant

  ghost predicate DeviceInv(f: Foreign, d: Device) {
    DurableInv(f, d.config.logCapacity, d.durable)
  }

  lemma FactoryIsSound(f: Foreign, capacity: byte, deviceKey: bytes)
    requires f.keys.Retained(EC_P256, deviceKey)
    ensures DurableInv(f, capacity, FactoryDurable(f.factoryKeys, deviceKey))
  {
    var r := FactoryRecord(f.factoryKeys);
    assert r.info.Key() == FACTORY_KEY;
    assert Validate(r).Ok?;
  }

  lemma SequencedIsSound(lib: KeyLibrary, generations: map<u16, u64>, r: ObjectRecord)
    requires WriteSound(lib, r)
    ensures WriteSound(lib, Sequenced(generations, r)) && Sequenced(generations, r).info.Key() == r.info.Key()
  {
    assert ExpectedInfoLength(Sequenced(generations, r)) == ExpectedInfoLength(r);
  }

  lemma EffectKeepsInv(f: Foreign, capacity: byte, s: Durable, v: Option<Volatile.Store>, auth: SessionAuthorization,
                       c: CommandCode, d: Done)
    requires DurableInv(f, capacity, s) && Permitted(f, s, v, auth, c, d)
    ensures DurableInv(f, capacity, ApplyDurable(f.factoryKeys, s, d.effect))
  {
    match d.effect
    case WriteObject(r) =>
      SequencedIsSound(f.keys, s.generations, r);
    case TrimLog(i) =>
      Audit.RetainLength(s.log.entries, i);
    case Reset(key) =>
      FactoryIsSound(f, capacity, key);
    case _ =>
  }

  /** Only the log differs, within its capacity, and a difference is marked. */
  ghost predicate OnlyLogged(a: Device, b: Device) {
    && b.config == a.config && b.epoch == a.epoch
    && b.durable == a.durable.(log := b.durable.log)
    && (a.dirty ==> b.dirty)
    && (b.durable.log != a.durable.log ==> b.dirty)
    && (|a.durable.log.entries| <= a.config.logCapacity ==> |b.durable.log.entries| <= a.config.logCapacity)
  }

  lemma AppendOnlyLogs(f: Foreign, d: Device, fact: Audit.Fact)
    ensures OnlyLogged(d, AppendAudit(f, d, fact)) && AppendAudit(f, d, fact).sessions == d.sessions
  {
  }

  lemma AuditIfOnlyLogs(f: Foreign, d: Device, auth: SessionAuthorization, c: CommandCode, request: Frame, code: byte)
    ensures OnlyLogged(d, AuditIf(f, d, auth, c, request, code))
    ensures AuditIf(f, d, auth, c, request, code).sessions == d.sessions
  {
    AppendOnlyLogs(f, d, FactOf(auth, c, request, code));
  }

  lemma RecordUnloggedOnlyLogs(d: Device)
    ensures OnlyLogged(d, RecordUnlogged(d)) && RecordUnlogged(d).sessions == d.sessions
  {
  }

  lemma SettleOnlyLogs(f: Foreign, before: Device, after: Device, auth: SessionAuthorization, c: Option<CommandCode>,
                       request: Frame, result: Result<bytes>)
    ensures
      var d := Settle(f, before, after, auth, c, request, result);
      && OnlyLogged(after, d) && d.sessions == after.sessions
      && (c.Some? && result.Ok? && ChangesPersistentState(c.value) ==> d.dirty)
  {
    if c.Some? {
      AppendOnlyLogs(f, after, FactOf(auth, c.value, request, ResultCode(result)));
    }
  }

  lemma OnlyLoggedTransitive(a: Device, b: Device, c: Device)
    requires OnlyLogged(a, b) && OnlyLogged(b, c)
    ensures OnlyLogged(a, c)
  {
  }

  /** Opening and authenticating sessions, and losing them, touch nothing durable but the log. */
  lemma HandshakesOnlyLog(f: Foreign, d: Device, h: Happening, env: Env)
    requires !h.Runs? && Plausible(f, d, h, env)
    ensures OnlyLogged(d, Replay(f, d, h))
  {
    match h
    case Creates(auth, request, made) =>
      var opened_ := AfterOpen(d, made);
      if made.Ok? {
        RecordUnloggedOnlyLogs(With(d, made.value.sid, made.value.entry));
      }
      AuditIfOnlyLogs(f, opened_, auth, Cmd.CreateSession, request, ResultCode(made));
      OnlyLoggedTransitive(d, opened_, Replay(f, d, h));
    case Authenticates(sid, request, admitted) =>
      var after := AfterAdmit(d, sid, admitted);
      if admitted.Ok? {
        RecordUnloggedOnlyLogs(With(Without(d, sid), sid, admitted.value));
      }
      AuditIfOnlyLogs(f, after, d.sessions[sid].authorization, Cmd.AuthenticateSession, request, ResultCode(admitted));
      OnlyLoggedTransitive(d, after, Replay(f, d, h));
    case _ =>
  }

  /** The state after the command that a session runs. */
  function Ran(f: Foreign, d: Device, h: Happening): Device
    requires h.Runs? && h.sid in d.sessions
  {
    RunWith(f, Without(d, h.sid), d.sessions[h.sid], h.inner, h.r).device
  }

  lemma InnerKeepsInv(f: Foreign, d: Device, v: Option<Volatile.Store>, auth: SessionAuthorization, request: Frame, r: Result<Done>)
    requires DeviceInv(f, d)
    requires r.Ok? ==> IsCommand(request.command) && Permitted(f, d.durable, v, auth, request.command, r.value)
    ensures DeviceInv(f, InnerWith(f, d, v, auth, request, r).device)
    ensures InnerWith(f, d, v, auth, request, r).device.config == d.config
  {
    if r.Ok? {
      EffectKeepsInv(f, d.config.logCapacity, d.durable, v, auth, request.command, r.value);
    }
    SettleOnlyLogs(f, d, AfterEffect(f, d, r), auth, SupportedFromByte(d.config, request.command), request, SizeChecked(r));
  }

  lemma RanKeepsInv(f: Foreign, d: Device, h: Happening, env: Env)
    requires DeviceInv(f, d) && h.Runs? && Plausible(f, d, h, env)
    ensures DeviceInv(f, Ran(f, d, h)) && Ran(f, d, h).config == d.config
  {
    var entry := d.sessions[h.sid];
    InnerKeepsInv(f, Without(d, h.sid), Some(entry.objects), entry.authorization, h.inner, h.r);
  }

  lemma ReplayKeepsInv(f: Foreign, d: Device, h: Happening, env: Env)
    requires DeviceInv(f, d) && Plausible(f, d, h, env)
    ensures DeviceInv(f, Replay(f, d, h)) && Replay(f, d, h).config == d.config
  {
    if h.Runs? {
      RanKeepsInv(f, d, h, env);
    } else {
      HandshakesOnlyLog(f, d, h, env);
    }
  }

  lemma EncodedKeepsInv(f: Foreign, d: Device, encoded: bytes, env: Env)
    requires f.Lawful() && DeviceInv(f, d)
    ensures DeviceInv(f, HandleEncoded(f, d, encoded, env).0)
    ensures HandleEncoded(f, d, encoded, env).0.config == d.config
  {
    var start, h := EncodedIsHappening(f, d, encoded, env);
    ReplayKeepsInv(f, start, h, env);
  }

  lemma StepKeepsInv(f: Foreign, d: Device, i: Input)
    requires f.Lawful() && DeviceInv(f, d)
    ensures DeviceInv(f, Step(f, d, i)) && Step(f, d, i).config == d.config
  {
    if i.Request? {
      EncodedKeepsInv(f, d, i.encoded, i.env);
    } else if i.Restart? {
      RestartLosesOnlySessions(f, d);
    }
  }

  /** Every state reachable from a sound one is sound. */
  lemma {:induction false} RunKeepsInv(f: Foreign, d: Device, inputs: seq<Input>)
    requires f.Lawful() && DeviceInv(f, d)
    ensures DeviceInv(f, Run(f, d, inputs)) && Run(f, d, inputs).config == d.config
    decreases |inputs|
  {
    if inputs != [] {
      StepKeepsInv(f, d, inputs[0]);
      RunKeepsInv(f, Step(f, d, inputs[0]), inputs[1..]);
    }
  }

  lemma FactoryRun(f: Foreign, config: DeviceConfig, serialized: bytes, inputs: seq<Input>)
    requires f.Lawful() && FactoryDefault(f, config, serialized).Ok?
    ensures DeviceInv(f, Run(f, FactoryDefault(f, config, serialized).value, inputs))
  {
    var d := FactoryDefault(f, config, serialized).value;
    FactoryIsSound(f, config.logCapacity, d.durable.deviceKey);
    RunKeepsInv(f, d, inputs);
  }

  /** The same of the bytes it saves. */
  lemma ReachableBytesRestore(f: Foreign, codec: ImageCodec, config: DeviceConfig, serialized: bytes, inputs: seq<Input>)
    requires f.Lawful() && FactoryDefault(f, config, serialized).Ok?
    requires codec.Keeps(Save(Run(f, FactoryDefault(f, config, serialized).value, inputs)))
    ensures
      var d := Run(f, FactoryDefault(f, config, serialized).value, inputs);
      FromPersistentState(f, codec, config, PersistentState(codec, d)) == Ok(d.(sessions := map[], dirty := false))
  {
    var start := FactoryDefault(f, config, serialized).value;
    FactoryIsSound(f, config.logCapacity, start.durable.deviceKey);
    RunKeepsInv(f, start, inputs);
    var d := Run(f, start, inputs);
    StateBytesRestore(f, codec, config, d, []);
    assert PersistentState(codec, d) + [] == PersistentState(codec, d);
  }

  /** Every state reachable from factory default saves to an image that restores to it, less
      sessions and the pending flag. */
  lemma ReachableRestores(f: Foreign, config: DeviceConfig, serialized: bytes, inputs: seq<Input>)
    requires f.Lawful() && FactoryDefault(f, config, serialized).Ok?
    ensures
      var d := Run(f, FactoryDefault(f, config, serialized).value, inputs);
      Restore(f, config, Save(d)) == Ok(d.(sessions := map[], dirty := false))
  {
    var start := FactoryDefault(f, config, serialized).value;
    FactoryIsSound(f, config.logCapacity, start.durable.deviceKey);
    RunKeepsInv(f, start, inputs);
    SaveRestore(f, config, Run(f, start, inputs));
  }
}
