/** The device as a state machine: one frame in, one frame out. */
module Machine {
  import opened Bytes
  import opened Errors
  import opened Algorithms
  import opened Frames
  import opened Envelope
  import opened SecureChannel
  import opened Objects
  import opened Protocol
  import Cmd
  import opened Options
  import opened Requests
  import opened Authorization
  import opened Store
  import opened ForeignCode
  import opened Commands
  import Audit
  import Counter
  import Volatile

  const MAX_SESSIONS := 16
  const SESSION_TIMEOUT := 30_000  // milliseconds

  datatype SessionEntry = SessionEntry(
    authorization: SessionAuthorization,
    secure: Secure,
    expected: Option<bytes>,
    authenticated: bool,
    lastActivity: nat,
    objects: Volatile.Store)

  type SessionTable = map<byte, SessionEntry>

  datatype Device = Device(
    config: DeviceConfig,
    durable: Durable,
    sessions: SessionTable,
    epoch: u64,
    dirty: bool)

  function FactoryDefault(f: Foreign, config: DeviceConfig, serialized: bytes): Result<Device> {
    var deviceKey :- FromOption(f.keys.parse(EC_P256, serialized), InvalidData);
    Ok(Device(config, FactoryDurable(f.factoryKeys, deviceKey), map[], 0, false))
  }

  // ----- audit

  function FactOf(auth: SessionAuthorization, c: CommandCode, request: Frame, code: byte): Audit.Fact {
    var ids := if c == Cmd.AuthenticateSession then (auth.keyId, 0) else AuditKeyIds(c, request.data);
    Audit.Fact(c, if |request.data| < 0x1_0000 then |request.data| else 0xffff, auth.keyId, ids.0, ids.1, code)
  }

  predicate LogFullNow(d: Device) {
    Audit.Full(d.config.logCapacity, d.durable.log)
  }

  function AppendAudit(f: Foreign, d: Device, fact: Audit.Fact): Device {
    if LogFullNow(d) then d
    else d.(durable := d.durable.(log := Audit.Append(f.hash, d.config.logCapacity, d.durable.log, fact)), dirty := true)
  }

  predicate ForcedAndFull(d: Device) {
    d.durable.options.forceAudit != OFF && LogFullNow(d)
  }

  function RecordUnlogged(d: Device): Device {
    if ForcedAndFull(d) then d.(durable := d.durable.(log := Audit.CountUnlogged(d.durable.log)), dirty := true)
    else d
  }

  // ----- inner commands

  /** Commands that force-audit holds back while the log is full. */
  predicate Gated(c: CommandCode) {
    !IsMeta(c) && c != Cmd.GetLogEntries && c != Cmd.SetLogIndex
  }

  function SupportedFromByte(config: DeviceConfig, b: byte): Option<CommandCode> {
    var c := FromByte(b);
    if c.Some? && SupportedCommand(config.firmware, c.value) then c else None
  }

  function ApplyEffect(f: Foreign, d: Device, e: Effect): Device {
    d.(durable := ApplyDurable(f.factoryKeys, d.durable, e), sessions := if e.Reset? then map[] else d.sessions)
  }

  /** The effect happens before the size of the response is checked. */
  function SizeChecked(r: Result<Done>): Result<bytes> {
    if r.Err? then Err(r.error)
    else if SecureResponseDataFits(|r.value.data|) then Ok(r.value.data)
    else Err(WrongLength)
  }

  datatype Inner = Inner(device: Device, objects: Option<Volatile.Store>, response: Frame)

  function EffectOf(r: Result<Done>): Effect {
    if r.Ok? then r.value.effect else NoEffect
  }

  function AfterEffect(f: Foreign, d: Device, r: Result<Done>): Device {
    ApplyEffect(f, d, EffectOf(r))
  }

  function AfterVolatile(v: Option<Volatile.Store>, r: Result<Done>): Option<Volatile.Store> {
    if v.Some? then Some(ApplyVolatile(v.value, EffectOf(r))) else None
  }

  /** Audit and mark: what follows the handler. */
  function Settle(f: Foreign, before: Device, after: Device, auth: SessionAuthorization, c: Option<CommandCode>,
                  request: Frame, result: Result<bytes>): Device
  {
    if c.None? then after
    else
      var logged := if ShouldAudit(before.durable.options, c.value)
                    then AppendAudit(f, after, FactOf(auth, c.value, request, ResultCode(result))) else after;
      if result.Ok? && ChangesPersistentState(c.value) then logged.(dirty := true) else logged
  }

  /** An inner command whose handler gave `r`. */
  function InnerWith(f: Foreign, d: Device, v: Option<Volatile.Store>, auth: SessionAuthorization, request: Frame,
                     r: Result<Done>): Inner
  {
    var c := SupportedFromByte(d.config, request.command);
    if c.Some? && Gated(c.value) && ForcedAndFull(d) then Inner(d, v, ErrorFrame(LogFull))
    else
      var result := SizeChecked(r);
      Inner(Settle(f, d, AfterEffect(f, d, r), auth, c, request, result),
            AfterVolatile(v, r),
            ResultFrame(request.command, result))
  }

  function ExecuteInner(f: Foreign, d: Device, v: Option<Volatile.Store>, auth: SessionAuthorization, request: Frame, env: Env)
    : Inner
  {
    InnerWith(f, d, v, auth, request, ExecuteResult(f, d.config, d.durable, v, auth, request, env))
  }

  // ----- sessions

  function Expire(d: Device, now: nat): Device {
    d.(sessions := map sid | sid in d.sessions && now - d.sessions[sid].lastActivity < SESSION_TIMEOUT :: d.sessions[sid])
  }

  function AuthorizationOf(objects: ObjectMap, id: u16): Result<SessionAuthorization> {
    var r :- Find(objects, ObjectKey(AuthenticationKey, id));
    if !r.material.Authentication? then Err(InvalidData)
    else Ok(SessionAuthorization(id, r.info.capabilities, r.info.delegated, r.info.domains))
  }

  /** The lowest free session identifier from `n` on. */
  function FreeSid(sessions: SessionTable, n: nat): Option<byte>
    requires n <= MAX_SESSIONS
    decreases MAX_SESSIONS - n
  {
    if n == MAX_SESSIONS then None
    else if n !in sessions then Some(n)
    else FreeSid(sessions, n + 1)
  }

  datatype NewSession = NewSession(sid: byte, entry: SessionEntry, response: bytes)

  function OpenSession(f: Foreign, d: Device, auth: SessionAuthorization, key: AuthenticationMaterial, peer: bytes, env: Env)
    : Result<NewSession>
  {
    var sid :- FromOption(FreeSid(d.sessions, 0), SessionsFull);
    match key
    case SymmetricKeys(keys) =>
      var begun :- BeginSymmetric(f.cipher, sid, keys, peer, env.challenge);
      Ok(NewSession(sid, SessionEntry(auth, begun.secure, Some(begun.host), false, env.stamp, map[]),
                [sid] + env.challenge + begun.card))
    case HostPublicKey(point) =>
      if |peer| != P256_PUBLIC_KEY_LENGTH then Err(WrongLength)
      else
        var a :- FromOption(f.scp11(d.durable.deviceKey, point, peer, env.seed), InvalidData);
        var secure := Secure(sid, a.sEnc, a.sMac, a.sRmac, Counter.Increment(Zeros(16)), a.receipt);
        Ok(NewSession(sid, SessionEntry(auth, secure, None, true, env.stamp, map[]), [sid] + a.ephemeral + a.receipt))
  }

  function AuditIf(f: Foreign, d: Device, auth: SessionAuthorization, c: CommandCode, request: Frame, code: byte): Device {
    if ShouldAudit(d.durable.options, c) then AppendAudit(f, d, FactOf(auth, c, request, code)) else d
  }

  function AfterOpen(d: Device, made: Result<NewSession>): Device {
    if made.Err? then d
    else
      var with := d.(sessions := d.sessions[made.value.sid := made.value.entry]);
      if made.value.entry.authenticated then RecordUnlogged(with) else with
  }

  function CreateSession(f: Foreign, d: Device, request: Frame, env: Env): (Device, Result<Frame>) {
    if |request.data| < 2 then (d, Err(WrongLength))
    else
      var id := DecodeU16(request.data[..2]);
      var auth := AuthorizationOf(d.durable.objects, id);
      if auth.Err? then (d, Err(auth.error))
      else
        var key := d.durable.objects[ObjectKey(AuthenticationKey, id)].material.key;
        var made := OpenSession(f, d, auth.value, key, request.data[2..], env);
        (AuditIf(f, AfterOpen(d, made), auth.value, Cmd.CreateSession, request, ResultCode(made)),
         if made.Err? then Err(made.error) else Ok(Response(Cmd.CreateSession, made.value.response)))
  }

  function Admit(f: Foreign, entry: SessionEntry, request: Frame, env: Env): Result<SessionEntry> {
    if entry.authenticated then Err(InvalidSession)
    else if entry.expected.None? then Err(AuthenticationFailed)
    else
      var (secure, accepted) := AuthenticateSymmetric(f.cipher, entry.secure, request, entry.expected.value);
      var _ :- accepted;
      Ok(entry.(secure := secure, expected := None, authenticated := true, lastActivity := env.stamp))
  }

  function Without(d: Device, sid: byte): Device {
    d.(sessions := d.sessions - {sid})
  }

  function With(d: Device, sid: byte, entry: SessionEntry): Device {
    d.(sessions := d.sessions[sid := entry])
  }

  function AfterAdmit(d: Device, sid: byte, admitted: Result<SessionEntry>): Device {
    if admitted.Err? then Without(d, sid) else RecordUnlogged(With(Without(d, sid), sid, admitted.value))
  }

  function AuthenticateSession(f: Foreign, d: Device, request: Frame, env: Env): (Device, Result<Frame>) {
    if request.data == [] then (d, Err(WrongLength))
    else
      var sid := request.data[0];
      if sid !in d.sessions then (d, Err(InvalidSession))
      else
        var entry := d.sessions[sid];
        var admitted := Admit(f, entry, request, env);
        (AuditIf(f, AfterAdmit(d, sid, admitted), entry.authorization, Cmd.AuthenticateSession, request, ResultCode(admitted)),
         if admitted.Err? then Err(admitted.error) else Ok(Response(Cmd.AuthenticateSession, [])))
  }

  predicate Closes(c: Option<CommandCode>, denied: bool, response: Frame) {
    && c.Some?
    && (c.value == Cmd.CloseSession || (c.value == Cmd.ResetDevice && !denied && response.command != ERROR_COMMAND))
  }

  /** The session lacks the capability that the command itself requires. */
  predicate Denied(auth: SessionAuthorization, inner: Frame) {
    var c := FromByte(inner.command);
    c.Some? && RequireFor(auth, c.value).Err?
  }

  /** The command got as far as its handler. */
  predicate Handled(d: Device, auth: SessionAuthorization, inner: Frame) {
    var c := SupportedFromByte(d.config, inner.command);
    !Denied(auth, inner) && !(c.Some? && Gated(c.value) && ForcedAndFull(d))
  }

  /** A decrypted command under its session's snapshot. A missing session capability is
      answered before anything else happens. */
  function RunWith(f: Foreign, d: Device, entry: SessionEntry, inner: Frame, r: Result<Done>): Inner {
    if Denied(entry.authorization, inner) then Inner(d, Some(entry.objects), ErrorFrame(InsufficientPermissions))
    else InnerWith(f, d, Some(entry.objects), entry.authorization, inner, r)
  }

  function RunInner(f: Foreign, d: Device, entry: SessionEntry, inner: Frame, env: Env): Inner {
    RunWith(f, d, entry, inner,
            ExecuteResult(f, d.config, d.durable, Some(entry.objects), entry.authorization, inner, env))
  }

  function Fitted(response: Frame): Frame {
    if SecureResponseFits(response) then response else ErrorFrame(WrongLength)
  }

  function StoreOf(v: Option<Volatile.Store>): Volatile.Store {
    if v.Some? then v.value else map[]
  }

  /** Encrypt the response and put the session back unless the command closed it. */
  function Conclude(f: Foreign, done: Inner, sid: byte, entry: SessionEntry, inner: Frame, env: Env): (Device, Result<Frame>) {
    var response := Fitted(done.response);
    var (secure, outer) := EncryptResponse(f.cipher, entry.secure, response);
    var next := entry.(secure := secure, lastActivity := env.stamp, objects := StoreOf(done.objects));
    (if outer.Err? || Closes(FromByte(inner.command), Denied(entry.authorization, inner), response) then done.device
     else With(done.device, sid, next),
     outer)
  }

  function SessionMessage(f: Foreign, d: Device, request: Frame, env: Env): (Device, Result<Frame>) {
    if request.data == [] then (d, Err(WrongLength))
    else
      var sid := request.data[0];
      if sid !in d.sessions then (d, Err(InvalidSession))
      else
        var entry := d.sessions[sid];
        if !entry.authenticated then (Without(d, sid), Err(InvalidSession))
        else
          var (secure, inner) := DecryptRequest(f.cipher, entry.secure, request);
          if inner.Err? then (Without(d, sid), Err(inner.error))
          else
            var done := RunInner(f, Without(d, sid), entry, inner.value, env);
            Conclude(f, done, sid, entry.(secure := secure), inner.value, env)
  }

  // ----- frames

  function Dispatch(f: Foreign, d: Device, request: Frame, env: Env): (Device, Result<Frame>) {
    var c := FromByte(request.command);
    if c.None? then (d, Err(InvalidCommand))
    else
      match c.value
      case 0x01 /* Echo */ => (d, Ok(ResultFrame(request.command, HandlePlain(f, d.config, d.durable, c.value, request.data))))
      case 0x06 /* GetDeviceInfo */ => (d, Ok(ResultFrame(request.command, HandlePlain(f, d.config, d.durable, c.value, request.data))))
      case 0x0a /* GetDevicePublicKey */ => (d, Ok(ResultFrame(request.command, HandlePlain(f, d.config, d.durable, c.value, request.data))))
      case 0x03 /* CreateSession */ => CreateSession(f, d, request, env)
      case 0x04 /* AuthenticateSession */ => AuthenticateSession(f, d, request, env)
      case 0x05 /* SessionMessage */ => SessionMessage(f, d, request, env)
      case _ => (d, Err(InvalidCommand))
  }

  function HandleFrame(f: Foreign, d: Device, request: Frame, env: Env): (Device, Frame) {
    var (d', r) := Dispatch(f, Expire(d, env.now), request, env);
    (d', if r.Ok? then r.value else ErrorFrame(r.error))
  }

  function HandleEncoded(f: Foreign, d: Device, encoded: bytes, env: Env): (Device, bytes) {
    var request := Parse(encoded);
    if request.Err? then (d, Encode(ErrorFrame(request.error)))
    else
      var (d', response) := HandleFrame(f, d, request.value, env);
      (d', Encode(response))
  }

  // ----- which effect a request has

  function InnerEffect(f: Foreign, d: Device, entry: SessionEntry, inner: Frame, env: Env): Effect {
    if Handled(d, entry.authorization, inner)
    then EffectOf(ExecuteResult(f, d.config, d.durable, Some(entry.objects), entry.authorization, inner, env))
    else NoEffect
  }

  /** The effect of the command inside a session message. */
  function MessageEffect(f: Foreign, d: Device, request: Frame, env: Env): Effect {
    if request.data == [] || request.data[0] !in d.sessions || !d.sessions[request.data[0]].authenticated then NoEffect
    else
      var entry := d.sessions[request.data[0]];
      var inner := DecryptRequest(f.cipher, entry.secure, request).1;
      if inner.Err? then NoEffect else InnerEffect(f, d, entry, inner.value, env)
  }

  /** The effect of a complete request. */
  function RequestEffect(f: Foreign, d: Device, encoded: bytes, env: Env): Effect {
    var request := Parse(encoded);
    if request.Err? || request.value.command != Cmd.SessionMessage then NoEffect
    else MessageEffect(f, Expire(d, env.now), request.value, env)
  }

  function ClearSessions(d: Device): Device {
    d.(sessions := map[])
  }

  /** Advance the epoch over one pending change. At the largest epoch the change stays pending. */
  function TakePersistentChange(d: Device): (Device, Result<bool>) {
    if !d.dirty then (d, Ok(false))
    else if d.epoch + 1 == U64_MODULUS then (d, Err(StorageFailed))
    else (d.(epoch := d.epoch + 1, dirty := false), Ok(true))
  }

  /** One request of a transport: the frame, then the epoch. */
  function ExecuteObserving(f: Foreign, d: Device, encoded: bytes, env: Env): (Device, Result<bytes>) {
    var (d1, response) := HandleEncoded(f, d, encoded, env);
    var (d2, taken) := TakePersistentChange(d1);
    (d2, if taken.Err? then Err(taken.error) else Ok(response))
  }
}
