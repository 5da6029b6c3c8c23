/**
 Every frame is one of a few happenings. `Replay` gives the next state from the
 happening alone, without the handlers, so that properties of runs can be proved
 from what handlers are permitted to do.
 */
module Trace {
  import opened Bytes
  import opened Errors
  import opened Frames
  import opened Envelope
  import opened SecureChannel
  import opened Objects
  import opened Protocol
  import Cmd
  import opened Authorization
  import opened Store
  import opened ForeignCode
  import opened Commands
  import opened Discipline
  import opened Machine
  import Counter

  datatype Happening =
    | Nothing
    | Creates(auth: SessionAuthorization, request: Frame, made: Result<NewSession>)
    | Authenticates(sid: byte, request: Frame, admitted: Result<SessionEntry>)
    | Drops(sid: byte)
    | Runs(sid: byte, request: Frame, inner: Frame, r: Result<Done>, next: Option<SessionEntry>)

  function Replay(f: Foreign, d: Device, h: Happening): Device
    requires h.Authenticates? || h.Runs? ==> h.sid in d.sessions
  {
    match h
    case Nothing => d
    case Creates(auth, request, made) =>
      AuditIf(f, AfterOpen(d, made), auth, Cmd.CreateSession, request, ResultCode(made))
    case Authenticates(sid, request, admitted) =>
      AuditIf(f, AfterAdmit(d, sid, admitted), d.sessions[sid].authorization, Cmd.AuthenticateSession, request,
              ResultCode(admitted))
    case Drops(sid) => Without(d, sid)
    case Runs(sid, request, inner, r, next) =>
      var after := RunWith(f, Without(d, sid), d.sessions[sid], inner, r).device;
      if next.Some? then With(after, sid, next.value) else after
  }

  /** A handler result that the session's authorization permits. */
  ghost predicate ResultPermitted(f: Foreign, d: Device, entry: SessionEntry, inner: Frame, r: Result<Done>) {
    r.Ok? ==>
      && IsCommand(inner.command)
      && Permitted(f, d.durable, Some(entry.objects), entry.authorization, inner.command, r.value)
      && (r.value.effect.NoEffect? || SupportedCommand(d.config.firmware, inner.command))
  }

  /** A new entry: bound to its own identifier, and waiting for a cryptogram with counter zero
      or authenticated with counter one. */
  predicate FreshEntry(sid: byte, auth: SessionAuthorization, e: SessionEntry) {
    && e.secure.sid == sid
    && e.authorization == auth
    && e.authenticated == e.expected.None?
    && Counter.Number(e.secure.counter) == (if e.authenticated then 1 else 0)
    && |e.secure.chaining| == BLOCK_SIZE
    && e.objects == map[]
  }

  /** The entry that replaces another after a completed exchange. */
  predicate Continues(e: SessionEntry, next: SessionEntry, chaining: bytes) {
    && next.authorization == e.authorization
    && next.expected == e.expected && next.authenticated == e.authenticated
    && next.secure.sid == e.secure.sid
    && next.secure.sEnc == e.secure.sEnc && next.secure.sMac == e.secure.sMac && next.secure.sRmac == e.secure.sRmac
    && next.secure.counter == Counter.Increment(e.secure.counter)
    && next.secure.chaining == chaining
  }

  predicate ClosesSession(f: Foreign, d: Device, sid: byte, inner: Frame, r: Result<Done>)
    requires sid in d.sessions
  {
    Closes(FromByte(inner.command), Denied(d.sessions[sid].authorization, inner),
           Fitted(RunWith(f, Without(d, sid), d.sessions[sid], inner, r).response))
  }

  ghost predicate Plausible(f: Foreign, d: Device, h: Happening, env: Env) {
    match h
    case Nothing => true
    case Creates(auth, request, made) =>
      && AuthorizationOf(d.durable.objects, auth.keyId) == Ok(auth)
      && request.command == Cmd.CreateSession
      && (made.Ok? ==>
            && made.value.sid < MAX_SESSIONS && made.value.sid !in d.sessions
            && FreshEntry(made.value.sid, auth, made.value.entry)
            && made.value.entry.lastActivity == env.stamp)
    case Authenticates(sid, request, admitted) =>
      && sid in d.sessions
      && request.command == Cmd.AuthenticateSession && |request.data| > 0 && request.data[0] == sid
      && admitted == Admit(f, d.sessions[sid], request, env)
    case Drops(sid) => sid in d.sessions
    case Runs(sid, request, inner, r, next) =>
      && sid in d.sessions
      && d.sessions[sid].authenticated
      && ResultPermitted(f, d, d.sessions[sid], inner, r)
      && (next.Some? ==> Continues(d.sessions[sid], next.value, Chained(f.cipher, d.sessions[sid].secure, request)) && next.value.lastActivity == env.stamp)
      && (ClosesSession(f, d, sid, inner, r) ==> next.None?)
  }

  /** The request names the session. */
  predicate Names(request: Frame, sid: byte) {
    && (request.command == Cmd.AuthenticateSession || request.command == Cmd.SessionMessage)
    && |request.data| > 0 && request.data[0] == sid
  }

  /** The happening is about what the frame names; nothing happens only if it names no session. */
  predicate From(d: Device, h: Happening, request: Frame) {
    match h
    case Nothing => |request.data| > 0 && request.data[0] in d.sessions ==> !Names(request, request.data[0])
    case Creates(auth, q, _) =>
      && request.command == Cmd.CreateSession && |request.data| >= 2
      && auth.keyId == DecodeU16(request.data[..2]) && q == request
    case Authenticates(sid, q, _) =>
      request.command == Cmd.AuthenticateSession && |request.data| > 0 && request.data[0] == sid && q == request
    case Drops(sid) => request.command == Cmd.SessionMessage && |request.data| > 0 && request.data[0] == sid
    case Runs(sid, q, _, _, _) =>
      request.command == Cmd.SessionMessage && |request.data| > 0 && request.data[0] == sid && q == request
  }

  /** The effect that the happening applies. */
  function Applied(d: Device, h: Happening): Effect
    requires h.Runs? ==> h.sid in d.sessions
  {
    if h.Runs? && Handled(d, d.sessions[h.sid].authorization, h.inner) then EffectOf(h.r) else NoEffect
  }

  // ----- each outer command is a happening

  lemma {:induction false} FreeSidIsFree(sessions: SessionTable, n: nat)
    requires n <= MAX_SESSIONS && FreeSid(sessions, n).Some?
    ensures FreeSid(sessions, n).value < MAX_SESSIONS && FreeSid(sessions, n).value !in sessions
    decreases MAX_SESSIONS - n
  {
    if n in sessions {
      FreeSidIsFree(sessions, n + 1);
    }
  }

  lemma OpenedIsFresh(f: Foreign, d: Device, auth: SessionAuthorization, key: AuthenticationMaterial, peer: bytes, env: Env)
    requires f.Lawful() && OpenSession(f, d, auth, key, peer, env).Ok?
    ensures
      var made := OpenSession(f, d, auth, key, peer, env).value;
      && made.sid < MAX_SESSIONS && made.sid !in d.sessions && FreshEntry(made.sid, auth, made.entry)
      && made.entry.lastActivity == env.stamp
  {
    FreeSidIsFree(d.sessions, 0);
    Counter.FirstNumbers();
  }

  lemma CreateIsHappening(f: Foreign, d: Device, request: Frame, env: Env) returns (h: Happening)
    requires f.Lawful() && request.command == Cmd.CreateSession
    ensures Plausible(f, d, h, env) && CreateSession(f, d, request, env).0 == Replay(f, d, h)
    ensures From(d, h, request)
  {
    h := Nothing;
    if |request.data| >= 2 {
      var id := DecodeU16(request.data[..2]);
      var auth := AuthorizationOf(d.durable.objects, id);
      if auth.Ok? {
        var key := d.durable.objects[ObjectKey(AuthenticationKey, id)].material.key;
        var made := OpenSession(f, d, auth.value, key, request.data[2..], env);
        if made.Ok? {
          OpenedIsFresh(f, d, auth.value, key, request.data[2..], env);
        }
        h := Creates(auth.value, request, made);
      }
    }
  }

  lemma AuthenticateIsHappening(f: Foreign, d: Device, request: Frame, env: Env) returns (h: Happening)
    requires request.command == Cmd.AuthenticateSession
    ensures Plausible(f, d, h, env) && AuthenticateSession(f, d, request, env).0 == Replay(f, d, h)
    ensures From(d, h, request)
  {
    h := Nothing;
    if request.data != [] && request.data[0] in d.sessions {
      var sid := request.data[0];
      h := Authenticates(sid, request, Admit(f, d.sessions[sid], request, env));
    }
  }

  lemma DecryptChains(c: Cipher, s: Secure, request: Frame)
    requires DecryptRequest(c, s, request).1.Ok?
    ensures DecryptRequest(c, s, request).0 == s.(chaining := Chained(c, s, request))
  {
  }

  lemma ConcludeContinues(f: Foreign, done: Inner, sid: byte, entry: SessionEntry, secure: Secure, inner: Frame, env: Env)
    returns (next: Option<SessionEntry>)
    requires secure == entry.secure.(chaining := secure.chaining)
    ensures Conclude(f, done, sid, entry.(secure := secure), inner, env).0
            == if next.Some? then With(done.device, sid, next.value) else done.device
    ensures next.Some? ==> Continues(entry, next.value, secure.chaining) && next.value.lastActivity == env.stamp
    ensures Closes(FromByte(inner.command), Denied(entry.authorization, inner), Fitted(done.response)) ==> next.None?
  {
    var response := Fitted(done.response);
    var (secure', outer) := EncryptResponse(f.cipher, secure, response);
    if outer.Err? || Closes(FromByte(inner.command), Denied(entry.authorization, inner), response) {
      next := None;
    } else {
      next := Some(entry.(secure := secure', lastActivity := env.stamp, objects := StoreOf(done.objects)));
    }
  }

  lemma ResultIsPermitted(f: Foreign, d: Device, entry: SessionEntry, inner: Frame, env: Env)
    returns (r: Result<Done>)
    requires f.Lawful() && SoundStore(f.keys, d.durable.objects)
    ensures ResultPermitted(f, d, entry, inner, r)
    ensures r == ExecuteResult(f, d.config, d.durable, Some(entry.objects), entry.authorization, inner, env)
  {
    r := ExecuteResult(f, d.config, d.durable, Some(entry.objects), entry.authorization, inner, env);
    if r.Ok? {
      CommandDiscipline(f, d.config, d.durable, Some(entry.objects), entry.authorization, inner, env);
    }
  }

  /** A message that decrypts runs its command and answers it. */
  lemma MessageConcludes(f: Foreign, d: Device, request: Frame, inner: Frame, secure: Secure, env: Env)
    requires |request.data| > 0 && request.data[0] in d.sessions && d.sessions[request.data[0]].authenticated
    requires DecryptRequest(f.cipher, d.sessions[request.data[0]].secure, request) == (secure, Ok(inner))
    ensures
      var sid := request.data[0];
      SessionMessage(f, d, request, env)
      == Conclude(f, RunInner(f, Without(d, sid), d.sessions[sid], inner, env), sid, d.sessions[sid].(secure := secure), inner, env)
  {
  }

  lemma RunIsHappening(f: Foreign, d: Device, request: Frame, inner: Frame, secure: Secure, r: Result<Done>, env: Env)
    returns (h: Happening)
    requires request.command == Cmd.SessionMessage
    requires |request.data| > 0 && request.data[0] in d.sessions && d.sessions[request.data[0]].authenticated
    requires secure == d.sessions[request.data[0]].secure.(chaining := Chained(f.cipher, d.sessions[request.data[0]].secure, request))
    requires ResultPermitted(f, d, d.sessions[request.data[0]], inner, r)
    ensures
      var sid := request.data[0];
      var entry := d.sessions[sid];
      && Plausible(f, d, h, env) && From(d, h, request)
      && Conclude(f, RunWith(f, Without(d, sid), entry, inner, r), sid, entry.(secure := secure), inner, env).0 == Replay(f, d, h)
      && Applied(d, h) == if Handled(d, entry.authorization, inner) then EffectOf(r) else NoEffect
  {
    var sid := request.data[0];
    var entry := d.sessions[sid];
    var done := RunWith(f, Without(d, sid), entry, inner, r);
    var next := ConcludeContinues(f, done, sid, entry, secure, inner, env);
    h := Runs(sid, request, inner, r, next);
  }

  lemma MessageIsHappening(f: Foreign, d: Device, request: Frame, env: Env) returns (h: Happening)
    requires f.Lawful() && SoundStore(f.keys, d.durable.objects) && request.command == Cmd.SessionMessage
    ensures Plausible(f, d, h, env) && SessionMessage(f, d, request, env).0 == Replay(f, d, h)
    ensures From(d, h, request) && Applied(d, h) == MessageEffect(f, d, request, env)
  {
    h := Nothing;
    if request.data != [] && request.data[0] in d.sessions {
      var sid := request.data[0];
      var entry := d.sessions[sid];
      h := Drops(sid);
      if entry.authenticated {
        var (secure, inner) := DecryptRequest(f.cipher, entry.secure, request);
        if inner.Ok? {
          DecryptChains(f.cipher, entry.secure, request);
          MessageConcludes(f, d, request, inner.value, secure, env);
          var r := ResultIsPermitted(f, d, entry, inner.value, env);
          h := RunIsHappening(f, d, request, inner.value, secure, r, env);
        }
      }
    }
  }

  lemma DispatchIsHappening(f: Foreign, d: Device, request: Frame, env: Env) returns (h: Happening)
    requires f.Lawful() && SoundStore(f.keys, d.durable.objects)
    ensures Plausible(f, d, h, env) && Dispatch(f, d, request, env).0 == Replay(f, d, h)
    ensures From(d, h, request)
    ensures Applied(d, h) == if request.command == Cmd.SessionMessage then MessageEffect(f, d, request, env) else NoEffect
  {
    if request.command == Cmd.CreateSession {
      h := CreateIsHappening(f, d, request, env);
    } else if request.command == Cmd.AuthenticateSession {
      h := AuthenticateIsHappening(f, d, request, env);
    } else if request.command == Cmd.SessionMessage {
      h := MessageIsHappening(f, d, request, env);
    } else {
      h := Nothing;
    }
  }

  /** A complete request: a malformed one does not even expire sessions. */
  lemma EncodedIsHappening(f: Foreign, d: Device, encoded: bytes, env: Env) returns (start: Device, h: Happening)
    requires f.Lawful() && SoundStore(f.keys, d.durable.objects)
    ensures start == if Parse(encoded).Ok? then Expire(d, env.now) else d
    ensures if Parse(encoded).Ok? then From(start, h, Parse(encoded).value) else h.Nothing?
    ensures Plausible(f, start, h, env) && HandleEncoded(f, d, encoded, env).0 == Replay(f, start, h)
    ensures Applied(start, h) == RequestEffect(f, d, encoded, env)
  {
    var request := Parse(encoded);
    if request.Err? {
      start, h := d, Nothing;
    } else {
      start := Expire(d, env.now);
      h := DispatchIsHappening(f, start, request.value, env);
    }
  }

  // ----- encoded requests and answers

  function Framed(r: Result<Frame>): Frame {
    if r.Ok? then r.value else ErrorFrame(r.error)
  }

  lemma EncodedMessage(f: Foreign, d: Device, request: Frame, env: Env)
    requires request.Valid() && request.command == Cmd.SessionMessage
    ensures
      var (d', r) := SessionMessage(f, Expire(d, env.now), request, env);
      HandleEncoded(f, d, Encode(request), env) == (d', Encode(Framed(r)))
  {
    ParseEncode(request);
  }

  lemma EncodedCreate(f: Foreign, d: Device, request: Frame, env: Env)
    requires request.Valid() && request.command == Cmd.CreateSession
    ensures
      var (d', r) := CreateSession(f, Expire(d, env.now), request, env);
      HandleEncoded(f, d, Encode(request), env) == (d', Encode(Framed(r)))
  {
    ParseEncode(request);
  }

  lemma EncodedAuthenticate(f: Foreign, d: Device, request: Frame, env: Env)
    requires request.Valid() && request.command == Cmd.AuthenticateSession
    ensures
      var (d', r) := AuthenticateSession(f, Expire(d, env.now), request, env);
      HandleEncoded(f, d, Encode(request), env) == (d', Encode(Framed(r)))
  {
    ParseEncode(request);
  }
}
