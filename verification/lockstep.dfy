/** Client and device together, over every run. */
module Lockstep {
  import opened Bytes
  import opened Errors
  import opened Frames
  import opened Envelope
  import opened SecureChannel
  import opened Objects
  import Cmd
  import opened ForeignCode
  import opened Commands
  import opened Machine
  import opened Persistence
  import opened Trace
  import opened DeviceRuns
  import opened Epochs
  import opened Sessions
  import opened Client

  /** A client, the device, and whether the device still holds the client's session. The
      session number alone would not say that: it can be given to a new session. */
  datatype World = World(device: Device, client: Session, alive: bool)

  datatype Move = Exchange(inner: Frame, env: Env) | Commit | Other(input: Input)

  datatype Exchanged = Exchanged(device: Device, client: Session, outcome: Outcome<Frame>)

  /** One command of the client, there and back, as encoded frames. */
  function Talk(f: Foreign, d: Device, client: Session, inner: Frame, env: Env): Exchanged {
    var sealed := Seal(f.cipher, client, inner);
    var (d', answer) := HandleEncoded(f, d, Encode(sealed.frame), env);
    var outer := Parse(answer);
    if outer.Err? then Exchanged(d', client, Failed)
    else
      var (client', outcome) := Open(f.cipher, client, sealed.mac, outer.value);
      Exchanged(d', client', outcome)
  }

  function Moved(f: Foreign, w: World, m: Move): World {
    match m
    case Exchange(inner, env) =>
      var x := Talk(f, w.device, w.client, inner, env);
      World(x.device, x.client, w.alive && w.client.sid in x.device.sessions)
    case Commit => w.(device := TakePersistentChange(w.device).0)
    case Other(i) =>
      var d' := Step(f, w.device, i);
      World(d', w.client, w.alive && w.client.sid in Met(w.device, i).sessions && w.client.sid in d'.sessions)
  }

  function MovedAll(f: Foreign, w: World, moves: seq<Move>): World
    decreases |moves|
  {
    if moves == [] then w else MovedAll(f, Moved(f, w, moves[0]), moves[1..])
  }

  /** The client sends what fits, and nobody else uses its session number. */
  predicate Proper(sid: byte, m: Move) {
    match m
    case Exchange(inner, _) => |inner.data| <= MAX_INNER_DATA
    case Commit => true
    case Other(i) => i.Request? && Parse(i.encoded).Ok? ==> !Names(Parse(i.encoded).value, sid)
  }

  ghost predicate Synchronized(d: Device, client: Session) {
    && client.sid in d.sessions
    && d.sessions[client.sid].authenticated
    && InStep(client, d.sessions[client.sid].secure)
  }

  /** While the session lives, both ends agree on keys, counter and chaining value. */
  ghost predicate Together(w: World) {
    w.alive ==> Synchronized(w.device, w.client)
  }

  // ----- one exchange

  lemma FittedFits(response: Frame)
    ensures SecureResponseFits(Fitted(response))
  {
    FitsExactly(1);
  }

  /** Whatever the command did, the client reads the response and both ends advance alike. */
  lemma ConcludeInStep(f: Foreign, done: Inner, sid: byte, entry: SessionEntry, client: Session, mac: Block, inner: Frame, env: Env)
    requires f.Lawful() && InStep(client, entry.secure)
    requires sid !in done.device.sessions
    ensures
      var (d', outer) := Conclude(f, done, sid, entry.(secure := entry.secure.(chaining := mac)), inner, env);
      && outer.Ok? && outer.value.Valid()
      && var (client', outcome) := Open(f.cipher, client, mac, outer.value);
         && outcome == Success(Fitted(done.response))
         && client'.sid == client.sid
         && (sid in d'.sessions ==> InStep(client', d'.sessions[sid].secure)
                                    && d'.sessions[sid].authenticated == entry.authenticated)
         && (sid !in d'.sessions
             <==> inner.command == 0x40 /* CloseSession */
                  || (inner.command == 0x08 /* ResetDevice */ && !Denied(entry.authorization, inner)
                      && Fitted(done.response).command != ERROR_COMMAND))
  {
    FittedFits(done.response);
    ClientReads(f.cipher, client, entry.secure, mac, Fitted(done.response));
  }

  lemma RunLeavesTable(f: Foreign, d: Device, sid: byte, entry: SessionEntry, inner: Frame, r: Result<Done>)
    ensures sid !in RunWith(f, Without(d, sid), entry, inner, r).device.sessions
  {
    var without := Without(d, sid);
    if Handled(without, entry.authorization, inner) {
      HandledRun(f, without, entry, inner, r);
    } else {
      RefusedEarly(f, without, entry, inner, r);
    }
  }

  /** What the device answers to the client's command inside the session. */
  function InnerAnswer(f: Foreign, d: Device, sid: byte, inner: Frame, env: Env): Inner
    requires sid in d.sessions
  {
    RunInner(f, Without(d, sid), d.sessions[sid], inner, env)
  }

  lemma MessageInStep(f: Foreign, d: Device, client: Session, inner: Frame, env: Env)
    requires f.Lawful() && |inner.data| <= MAX_INNER_DATA
    requires client.sid in d.sessions && d.sessions[client.sid].authenticated && InStep(client, d.sessions[client.sid].secure)
    ensures
      var sealed := Seal(f.cipher, client, inner);
      var (d', outer) := SessionMessage(f, d, sealed.frame, env);
      && sealed.frame.Valid() && sealed.frame.command == SESSION_MESSAGE
      && outer.Ok? && outer.value.Valid()
      && var (client', outcome) := Open(f.cipher, client, sealed.mac, outer.value);
         && outcome == Success(Fitted(InnerAnswer(f, d, client.sid, inner, env).response))
         && client'.sid == client.sid
         && (client.sid in d'.sessions ==> InStep(client', d'.sessions[client.sid].secure) && d'.sessions[client.sid].authenticated)
  {
    var sid := client.sid;
    var entry := d.sessions[sid];
    FitsExactly(|inner.data|);
    SealedParts(f.cipher, client, inner);
    DeviceReads(f.cipher, client, entry.secure, inner);
    var sealed := Seal(f.cipher, client, inner);
    MessageConcludes(f, d, sealed.frame, inner, entry.secure.(chaining := sealed.mac), env);
    RunLeavesTable(f, d, sid, entry, inner,
                   ExecuteResult(f, d.config, d.durable, Some(entry.objects), entry.authorization, inner, env));
    ConcludeInStep(f, InnerAnswer(f, d, sid, inner, env), sid, entry, client, sealed.mac, inner, env);
  }

  /** A request and its response are encrypted from the same counter, and so with the same key and
      initialization vector. */
  lemma ExchangeSharesCounter(f: Foreign, d: Device, client: Session, inner: Frame, env: Env)
    requires f.Lawful() && |inner.data| <= MAX_INNER_DATA && Synchronized(d, client)
    ensures
      var sealed := Seal(f.cipher, client, inner);
      var outer := SessionMessage(f, d, sealed.frame, env).1;
      var text := Ciphertext(f.cipher, client.sEnc, client.counter, inner);
      var answer := Ciphertext(f.cipher, client.sEnc, client.counter,
                               Fitted(InnerAnswer(f, d, client.sid, inner, env).response));
      && sealed.frame.data == [client.sid] + text + Truncated(sealed.mac)
      && outer.Ok?
      && outer.value == Boxed(client.sid, answer, ResponseTag(f.cipher, client.sRmac, sealed.mac, client.sid, answer))
  {
    var sid := client.sid;
    var entry := d.sessions[sid];
    FitsExactly(|inner.data|);
    SealedParts(f.cipher, client, inner);
    DeviceReads(f.cipher, client, entry.secure, inner);
    var sealed := Seal(f.cipher, client, inner);
    var secure := entry.secure.(chaining := sealed.mac);
    MessageConcludes(f, d, sealed.frame, inner, secure, env);
    var done := InnerAnswer(f, d, sid, inner, env);
    FittedFits(done.response);
    DeviceSeals(f.cipher, secure, Fitted(done.response));
    Concludes(f, done, sid, entry.(secure := secure), inner, env);
  }

  lemma Concludes(f: Foreign, done: Inner, sid: byte, entry: SessionEntry, inner: Frame, env: Env)
    ensures Conclude(f, done, sid, entry, inner, env).1 == EncryptResponse(f.cipher, entry.secure, Fitted(done.response)).1
  {
  }

  /** What an exchange promises: a session that has timed out is answered with an error and is
      gone; otherwise the client gets exactly the inner response, and both ends agree again
      unless the command closed the session. */
  ghost predicate Kept(f: Foreign, d: Device, client: Session, inner: Frame, env: Env, x: Exchanged)
    requires client.sid in d.sessions
  {
    && x.client.sid == client.sid
    && if env.now - d.sessions[client.sid].lastActivity < 30_000 then
         && x.outcome == Success(Fitted(InnerAnswer(f, Expire(d, env.now), client.sid, inner, env).response))
         && (client.sid in x.device.sessions ==> Synchronized(x.device, x.client))
       else
         x.outcome == Success(ErrorFrame(InvalidSession)) && x.client == client && client.sid !in x.device.sessions
  }

  lemma TalkHears(f: Foreign, d: Device, client: Session, inner: Frame, env: Env, d': Device, reply: Frame)
    requires HandleEncoded(f, d, Encode(Seal(f.cipher, client, inner).frame), env) == (d', Encode(reply)) && reply.Valid()
    ensures
      var (client', outcome) := Open(f.cipher, client, Seal(f.cipher, client, inner).mac, reply);
      Talk(f, d, client, inner, env) == Exchanged(d', client', outcome)
  {
    ParseEncode(reply);
  }

  lemma LiveExchange(f: Foreign, d: Device, client: Session, inner: Frame, env: Env)
    requires f.Lawful() && |inner.data| <= MAX_INNER_DATA && Synchronized(d, client)
    requires client.sid in Expire(d, env.now).sessions
    ensures Kept(f, d, client, inner, env, Talk(f, d, client, inner, env))
  {
    var met := Expire(d, env.now);
    var request := Seal(f.cipher, client, inner).frame;
    MessageInStep(f, met, client, inner, env);
    var (d', r) := SessionMessage(f, met, request, env);
    EncodedMessage(f, d, request, env);
    TalkHears(f, d, client, inner, env, d', r.value);
  }

  lemma UnknownSession(f: Foreign, d: Device, request: Frame, env: Env)
    requires |request.data| > 0 && request.data[0] !in d.sessions
    ensures SessionMessage(f, d, request, env) == (d, Err(InvalidSession))
  {
  }

  lemma LateExchange(f: Foreign, d: Device, client: Session, inner: Frame, env: Env)
    requires f.Lawful() && |inner.data| <= MAX_INNER_DATA && Synchronized(d, client)
    requires client.sid !in Expire(d, env.now).sessions
    ensures Kept(f, d, client, inner, env, Talk(f, d, client, inner, env))
  {
    var met := Expire(d, env.now);
    var request := Seal(f.cipher, client, inner).frame;
    FitsExactly(|inner.data|);
    SealedParts(f.cipher, client, inner);
    UnknownSession(f, met, request, env);
    EncodedMessage(f, d, request, env);
    TalkHears(f, d, client, inner, env, met, ErrorFrame(InvalidSession));
  }

  lemma ExchangeKept(f: Foreign, d: Device, client: Session, inner: Frame, env: Env)
    requires f.Lawful() && |inner.data| <= MAX_INNER_DATA && Synchronized(d, client)
    ensures Kept(f, d, client, inner, env, Talk(f, d, client, inner, env))
  {
    if client.sid in Expire(d, env.now).sessions {
      LiveExchange(f, d, client, inner, env);
    } else {
      LateExchange(f, d, client, inner, env);
    }
  }

  /** The commands that end a session: CloseSession whatever comes of it, and a reset that is
      answered with success. */
  predicate Ends(command: byte, answer: Outcome<Frame>) {
    || command == 0x40 /* CloseSession */
    || (command == 0x08 /* ResetDevice */ && answer.Success? && answer.value.command != 0x7f)
  }

  lemma DeniedAnswer(f: Foreign, d: Device, entry: SessionEntry, inner: Frame, env: Env)
    requires Denied(entry.authorization, inner)
    ensures Fitted(RunInner(f, d, entry, inner, env).response) == ErrorFrame(InsufficientPermissions)
  {
    FitsExactly(1);
  }

  lemma MessageEndsExactly(f: Foreign, d: Device, client: Session, inner: Frame, env: Env)
    requires f.Lawful() && |inner.data| <= MAX_INNER_DATA && Synchronized(d, client)
    ensures
      client.sid !in SessionMessage(f, d, Seal(f.cipher, client, inner).frame, env).0.sessions
      <==> Ends(inner.command, Success(Fitted(InnerAnswer(f, d, client.sid, inner, env).response)))
  {
    var sid := client.sid;
    var entry := d.sessions[sid];
    FitsExactly(|inner.data|);
    SealedParts(f.cipher, client, inner);
    DeviceReads(f.cipher, client, entry.secure, inner);
    var sealed := Seal(f.cipher, client, inner);
    MessageConcludes(f, d, sealed.frame, inner, entry.secure.(chaining := sealed.mac), env);
    RunLeavesTable(f, d, sid, entry, inner,
                   ExecuteResult(f, d.config, d.durable, Some(entry.objects), entry.authorization, inner, env));
    ConcludeInStep(f, InnerAnswer(f, d, sid, inner, env), sid, entry, client, sealed.mac, inner, env);
    if Denied(entry.authorization, inner) {
      DeniedAnswer(f, Without(d, sid), entry, inner, env);
    }
  }

  /** A live exchange ends the session exactly when its command does. */
  lemma ExchangeEndsExactly(f: Foreign, d: Device, client: Session, inner: Frame, env: Env)
    requires f.Lawful() && |inner.data| <= MAX_INNER_DATA && Synchronized(d, client)
    requires env.now - d.sessions[client.sid].lastActivity < 30_000
    ensures
      var x := Talk(f, d, client, inner, env);
      client.sid !in x.device.sessions <==> Ends(inner.command, x.outcome)
  {
    var met := Expire(d, env.now);
    var request := Seal(f.cipher, client, inner).frame;
    MessageInStep(f, met, client, inner, env);
    MessageEndsExactly(f, met, client, inner, env);
    var (d', r) := SessionMessage(f, met, request, env);
    EncodedMessage(f, d, request, env);
    TalkHears(f, d, client, inner, env, d', r.value);
  }

  // ----- every run

  lemma OtherHappening(f: Foreign, d: Device, h: Happening, env: Env, client: Session)
    requires Plausible(f, d, h, env) && Synchronized(d, client)
    requires (h.Authenticates? || h.Drops? || h.Runs?) ==> h.sid != client.sid
    ensures client.sid in TableAfter(d, h) ==> TableAfter(d, h)[client.sid] == d.sessions[client.sid]
  {
  }

  lemma OtherRequest(f: Foreign, d: Device, i: Input, client: Session)
    requires f.Lawful() && DeviceInv(f, d) && Synchronized(d, client) && i.Request? && Proper(client.sid, Other(i))
    requires client.sid in Met(d, i).sessions
    ensures
      var d' := HandleEncoded(f, d, i.encoded, i.env).0;
      client.sid in d'.sessions ==> Synchronized(d', client)
  {
    var start, h := EncodedIsHappening(f, d, i.encoded, i.env);
    OtherHappening(f, start, h, i.env, client);
    ReplayTable(f, start, h, i.env);
  }

  lemma OtherKept(f: Foreign, w: World, i: Input)
    requires f.Lawful() && DeviceInv(f, w.device) && Together(w) && Proper(w.client.sid, Other(i))
    ensures Together(Moved(f, w, Other(i)))
  {
    if w.alive && w.client.sid in Met(w.device, i).sessions {
      if i.Request? {
        OtherRequest(f, w.device, i, w.client);
      } else if i.Restart? {
        RestartLosesOnlySessions(f, w.device);
      }
    }
  }

  lemma MoveKept(f: Foreign, w: World, m: Move)
    requires f.Lawful() && DeviceInv(f, w.device) && Together(w) && Proper(w.client.sid, m)
    ensures Together(Moved(f, w, m)) && Moved(f, w, m).client.sid == w.client.sid
  {
    match m
    case Exchange(inner, env) =>
      if w.alive {
        ExchangeKept(f, w.device, w.client, inner, env);
      }
    case Commit =>
    case Other(i) => OtherKept(f, w, i);
  }

  lemma MoveKeepsInv(f: Foreign, w: World, m: Move)
    requires f.Lawful() && DeviceInv(f, w.device)
    ensures DeviceInv(f, Moved(f, w, m).device)
  {
    match m
    case Exchange(inner, env) => EncodedKeepsInv(f, w.device, Encode(Seal(f.cipher, w.client, inner).frame), env);
    case Commit =>
    case Other(i) => StepKeepsInv(f, w.device, i);
  }

  /** Every exchange made while the session lives keeps its promise. */
  ghost predicate AllKept(f: Foreign, w: World, moves: seq<Move>)
    decreases |moves|
  {
    moves == [] ||
    (&& (w.alive && moves[0].Exchange? ==>
           w.client.sid in w.device.sessions &&
           Kept(f, w.device, w.client, moves[0].inner, moves[0].env,
                Talk(f, w.device, w.client, moves[0].inner, moves[0].env)))
     && AllKept(f, Moved(f, w, moves[0]), moves[1..]))
  }

  /** Over every run of exchanges, interleaved with any other requests, commits, restarts and
      lost sessions: while the device holds the client's session both ends agree, and each
      exchange hands the client exactly the device's inner response. */
  lemma {:induction false} ChannelLockstep(f: Foreign, w: World, moves: seq<Move>)
    requires f.Lawful() && DeviceInv(f, w.device) && Together(w)
    requires forall m | m in moves :: Proper(w.client.sid, m)
    ensures Together(MovedAll(f, w, moves)) && AllKept(f, w, moves)
    decreases |moves|
  {
    if moves != [] {
      assert moves[0] in moves;
      MoveKept(f, w, moves[0]);
      MoveKeepsInv(f, w, moves[0]);
      if w.alive && moves[0].Exchange? {
        ExchangeKept(f, w.device, w.client, moves[0].inner, moves[0].env);
      }
      ChannelLockstep(f, Moved(f, w, moves[0]), moves[1..]);
    }
  }

  // ----- the handshake that begins it

  /** A key that a symmetric client can open a session with. */
  predicate Opens(d: Device, keyId: u16, keys: bytes) {
    var k := ObjectKey(AuthenticationKey, keyId);
    && k in d.durable.objects
    && d.durable.objects[k].material == Authentication(SymmetricKeys(keys)) && |keys| == 32
    && FreeSid(d.sessions, 0).Some?
  }

  /** The device waits for this client's cryptogram. */
  ghost predicate Awaits(f: Foreign, d: Device, sid: byte, keys: bytes, challenge: bytes, stamp: nat) {
    var begun := BeginSymmetric(f.cipher, sid, keys, HOST_CHALLENGE, challenge);
    && begun.Ok?
    && sid in d.sessions && !d.sessions[sid].authenticated && d.sessions[sid].lastActivity == stamp
    && d.sessions[sid].secure == begun.value.secure && d.sessions[sid].expected == Some(begun.value.host)
  }

  function CreateAnswer(f: Foreign, sid: byte, keys: bytes, challenge: bytes): Frame
    requires BeginSymmetric(f.cipher, sid, keys, HOST_CHALLENGE, challenge).Ok?
  {
    Response(CREATE_SESSION, [sid] + challenge + BeginSymmetric(f.cipher, sid, keys, HOST_CHALLENGE, challenge).value.card)
  }

  lemma CreateWaits(f: Foreign, d: Device, keyId: u16, keys: bytes, env: Env)
    requires Opens(d, keyId, keys)
    ensures
      var sid := FreeSid(d.sessions, 0).value;
      var (d', r) := CreateSession(f, d, CreateRequest(keyId), env);
      Awaits(f, d', sid, keys, env.challenge, env.stamp) && r == Ok(CreateAnswer(f, sid, keys, env.challenge))
  {
    var request := CreateRequest(keyId);
    assert request.data[..2] == EncodeU16(keyId) && request.data[2..] == HOST_CHALLENGE;
    var auth := AuthorizationOf(d.durable.objects, keyId).value;
    var made := OpenSession(f, d, auth, SymmetricKeys(keys), HOST_CHALLENGE, env);
    AuditIfOnlyLogs(f, AfterOpen(d, made), auth, Cmd.CreateSession, request, ResultCode(made));
  }

  lemma AuthenticateAdmits(f: Foreign, d: Device, sid: byte, keys: bytes, challenge: bytes, stamp: nat, env: Env)
    requires f.Lawful() && |keys| == 32 && |challenge| == CHALLENGE_LENGTH && Awaits(f, d, sid, keys, challenge, stamp)
    ensures
      var opening := AuthenticateRequest(f.cipher, keys, CreateAnswer(f, sid, keys, challenge));
      && opening.Success? && opening.value.request.Valid() && opening.value.request.command == AUTHENTICATE_SESSION
      && var (d', r) := AuthenticateSession(f, d, opening.value.request, env);
         Synchronized(d', opening.value.session) && r == Ok(Response(AUTHENTICATE_SESSION, []))
  {
    HandshakeInStep(f.cipher, sid, keys, challenge);
    var create := CreateAnswer(f, sid, keys, challenge);
    var request := AuthenticateRequest(f.cipher, keys, create).value.request;
    assert create.data[0] == sid && request.data[0] == sid;
    var admitted := Admit(f, d.sessions[sid], request, env);
    AuditIfOnlyLogs(f, AfterAdmit(d, sid, admitted), d.sessions[sid].authorization, Cmd.AuthenticateSession, request,
                    ResultCode(admitted));
  }

  lemma CreateHeard(f: Foreign, d: Device, keyId: u16, keys: bytes, env: Env)
    requires f.Lawful() && |env.challenge| == CHALLENGE_LENGTH && Opens(Expire(d, env.now), keyId, keys)
    ensures
      var sid := FreeSid(Expire(d, env.now).sessions, 0).value;
      var (d', created) := HandleEncoded(f, d, Encode(CreateRequest(keyId)), env);
      && Awaits(f, d', sid, keys, env.challenge, env.stamp)
      && Parse(created) == Ok(CreateAnswer(f, sid, keys, env.challenge))
  {
    var met := Expire(d, env.now);
    EncodedCreate(f, d, CreateRequest(keyId), env);
    CreateWaits(f, met, keyId, keys, env);
    ParseEncode(CreateAnswer(f, FreeSid(met.sessions, 0).value, keys, env.challenge));
  }

  lemma AuthenticateHeard(f: Foreign, d: Device, sid: byte, keys: bytes, challenge: bytes, stamp: nat, env: Env)
    requires f.Lawful() && |keys| == 32 && |challenge| == CHALLENGE_LENGTH && Awaits(f, d, sid, keys, challenge, stamp)
    requires env.now - stamp < SESSION_TIMEOUT
    ensures
      var opening := AuthenticateRequest(f.cipher, keys, CreateAnswer(f, sid, keys, challenge));
      && opening.Success?
      && var (d', accepted) := HandleEncoded(f, d, Encode(opening.value.request), env);
         Parse(accepted) == Ok(Response(AUTHENTICATE_SESSION, [])) && Synchronized(d', opening.value.session)
  {
    AuthenticateAdmits(f, Expire(d, env.now), sid, keys, challenge, stamp, env);
    EncodedAuthenticate(f, d, AuthenticateRequest(f.cipher, keys, CreateAnswer(f, sid, keys, challenge)).value.request, env);
    ParseEncode(Response(AUTHENTICATE_SESSION, []));
  }

  /** The two encoded messages of the handshake leave client and device in step. */
  lemma HandshakeSynchronizes(f: Foreign, d: Device, keyId: u16, keys: bytes, first: Env, second: Env)
    requires f.Lawful() && |first.challenge| == CHALLENGE_LENGTH && Opens(Expire(d, first.now), keyId, keys)
    requires second.now - first.stamp < SESSION_TIMEOUT
    ensures
      var (d1, created) := HandleEncoded(f, d, Encode(CreateRequest(keyId)), first);
      && Parse(created).Ok?
      && var opening := AuthenticateRequest(f.cipher, keys, Parse(created).value);
         && opening.Success?
         && var (d2, accepted) := HandleEncoded(f, d1, Encode(opening.value.request), second);
            && Parse(accepted) == Ok(Response(AUTHENTICATE_SESSION, []))
            && Synchronized(d2, opening.value.session)
  {
    var sid := FreeSid(Expire(d, first.now).sessions, 0).value;
    CreateHeard(f, d, keyId, keys, first);
    AuthenticateHeard(f, HandleEncoded(f, d, Encode(CreateRequest(keyId)), first).0, sid, keys, first.challenge, first.stamp, second);
  }
}
