/** How sessions begin: with which number, which powers, and which keys. */
module Opening {
  import opened Bytes
  import opened Errors
  import opened Frames
  import opened Counter
  import opened SecureChannel
  import opened Objects
  import opened Authorization
  import opened ForeignCode
  import opened Entitlement
  import opened Machine
  import opened Trace
  import opened DeviceRuns
  import opened Lockstep
  import Cmd
  import C = Client

  /** A session opened by a request: the lowest free number, the powers of the key that the request
      names at that moment, no session objects, and authenticated at once exactly for a public key. */
  ghost predicate OpenedBy(before: Device, request: Frame, env: Env, after: Device, sid: byte) {
    && |request.data| >= 2
    && var k := ObjectKey(AuthenticationKey, Id(request.data, 0));
       && k in before.durable.objects && before.durable.objects[k].material.Authentication?
       && sid < 16 && sid !in before.sessions && (forall n: byte :: n < sid ==> n in before.sessions)
       && sid in after.sessions && after.sessions == before.sessions[sid := after.sessions[sid]]
       && var entry, info := after.sessions[sid], before.durable.objects[k].info;
          && entry.authorization == SessionAuthorization(k.id, info.capabilities, info.delegated, info.domains)
          && entry.objects == map[] && entry.secure.sid == sid && entry.lastActivity == env.stamp
          && entry.authenticated == before.durable.objects[k].material.key.HostPublicKey?
  }

  lemma {:induction false} FreeSidIsLowest(sessions: SessionTable, n: nat)
    requires n <= MAX_SESSIONS && FreeSid(sessions, n).Some?
    ensures
      var sid := FreeSid(sessions, n).value;
      n <= sid < MAX_SESSIONS && sid !in sessions && forall m: byte :: n <= m < sid ==> m in sessions
    decreases MAX_SESSIONS - n
  {
    if n in sessions {
      FreeSidIsLowest(sessions, n + 1);
    }
  }

  lemma OpenSessionAs(f: Foreign, d: Device, auth: SessionAuthorization, key: AuthenticationMaterial, peer: bytes, env: Env)
    requires OpenSession(f, d, auth, key, peer, env).Ok?
    ensures
      var made := OpenSession(f, d, auth, key, peer, env).value;
      && FreeSid(d.sessions, 0) == Some(made.sid)
      && made.entry.authorization == auth && made.entry.objects == map[] && made.entry.secure.sid == made.sid
      && made.entry.lastActivity == env.stamp
      && made.entry.authenticated == key.HostPublicKey?
      && |made.response| > 0 && made.response[0] == made.sid
  {
  }

  lemma CreateOpens(f: Foreign, d: Device, request: Frame, env: Env)
    requires CreateSession(f, d, request, env).1.Ok?
    ensures
      var (d', r) := CreateSession(f, d, request, env);
      r.value.command == 0x83 && |r.value.data| > 0 && OpenedBy(d, request, env, d', r.value.data[0])
  {
    IdIsDecoded(request.data, 0);
    var id := DecodeU16(request.data[..2]);
    var auth := AuthorizationOf(d.durable.objects, id).value;
    var key := d.durable.objects[ObjectKey(AuthenticationKey, id)].material.key;
    OpenSessionAs(f, d, auth, key, request.data[2..], env);
    FreeSidIsLowest(d.sessions, 0);
    var made := OpenSession(f, d, auth, key, request.data[2..], env);
    AuditIfOnlyLogs(f, AfterOpen(d, made), auth, Cmd.CreateSession, request, ResultCode(made));
  }

  /** An encoded CreateSession that is answered with success opens such a session among those that
      have not timed out. */
  lemma OpensWithKeysPowers(f: Foreign, d: Device, request: Frame, env: Env)
    requires request.Valid() && request.command == 0x03
    ensures
      var (d', answer) := HandleEncoded(f, d, Encode(request), env);
      |answer| >= 3 && (answer[0] != 0x7f ==> |answer| > 3 && OpenedBy(Expire(d, env.now), request, env, d', answer[3]))
  {
    EncodedCreate(f, d, request, env);
    var met := Expire(d, env.now);
    if CreateSession(f, met, request, env).1.Ok? {
      CreateOpens(f, met, request, env);
    }
  }

  /** Where it can be opened, an asymmetric session starts with the agreed keys, counter one and the
      receipt as chaining value: a client with the same keys is in step with it. */
  lemma AsymmetricSynchronizes(f: Foreign, d: Device, keyId: u16, point: bytes, peer: bytes, env: Env, a: Agreement)
    requires
      && var k := ObjectKey(AuthenticationKey, keyId);
         k in d.durable.objects && d.durable.objects[k].material == Authentication(HostPublicKey(point))
    requires |peer| == 65 && FreeSid(d.sessions, 0).Some? && f.scp11(d.durable.deviceKey, point, peer, env.seed) == Some(a)
    ensures
      var sid := FreeSid(d.sessions, 0).value;
      var (d', r) := CreateSession(f, d, Frame(0x03, EncodeU16(keyId) + peer), env);
      && r == Ok(Frame(0x83, [sid] + a.ephemeral + a.receipt))
      && Synchronized(d', C.Session(sid, a.sEnc, a.sMac, a.sRmac, Zeros(15) + [1], a.receipt))
  {
    var request := Frame(0x03, EncodeU16(keyId) + peer);
    assert request.data[..2] == EncodeU16(keyId) && request.data[2..] == peer;
    var auth := AuthorizationOf(d.durable.objects, keyId).value;
    var made := OpenSession(f, d, auth, HostPublicKey(point), peer, env);
    AuditIfOnlyLogs(f, AfterOpen(d, made), auth, Cmd.CreateSession, request, ResultCode(made));
    C.FirstCounter();
  }

  // ----- when it succeeds

  lemma {:induction false} FreeSidExists(sessions: SessionTable, n: nat)
    requires n <= MAX_SESSIONS
    ensures FreeSid(sessions, n).Some? <==> exists m: byte :: n <= m < MAX_SESSIONS && m !in sessions
    decreases MAX_SESSIONS - n
  {
    if n < MAX_SESSIONS && n in sessions {
      FreeSidExists(sessions, n + 1);
    }
  }

  /** What is sent to open a session: a challenge for a symmetric key, a point for a public one that
      the key agreement takes. */
  predicate OpeningFits(f: Foreign, deviceKey: bytes, key: AuthenticationMaterial, peer: bytes, seed: bytes) {
    match key
    case SymmetricKeys(keys) => |keys| == 32 && |peer| == 8
    case HostPublicKey(point) => |peer| == 65 && f.scp11(deviceKey, point, peer, seed).Some?
  }

  /** A session opens exactly with an authentication key, what its kind of key needs, and one of the
      sixteen numbers free. */
  lemma OpensExactly(f: Foreign, d: Device, request: Frame, env: Env)
    ensures
      CreateSession(f, d, request, env).1.Ok?
      <==> && |request.data| >= 2
           && var k := ObjectKey(AuthenticationKey, Id(request.data, 0));
              && k in d.durable.objects && d.durable.objects[k].material.Authentication?
              && OpeningFits(f, d.durable.deviceKey, d.durable.objects[k].material.key, request.data[2..], env.seed)
              && exists sid: byte :: 0 <= sid < 16 && sid !in d.sessions
  {
    FreeSidExists(d.sessions, 0);
    if |request.data| >= 2 {
      IdIsDecoded(request.data, 0);
    }
  }

  /** A waiting session is admitted exactly by the expected cryptogram with its MAC; it keeps its
      powers and objects, and its time starts anew. */
  lemma AdmitsExactly(f: Foreign, entry: SessionEntry, request: Frame, env: Env)
    requires f.Lawful()
    ensures
      Admit(f, entry, request, env).Ok?
      <==> && !entry.authenticated && entry.expected.Some? && Maced(f.cipher, entry.secure, request)
           && |request.data| == 17 && request.data[0] == entry.secure.sid && request.data[1..9] == entry.expected.value
    ensures Admit(f, entry, request, env).Ok? ==>
              var next := Admit(f, entry, request, env).value;
              && next.authenticated && next.expected.None? && next.lastActivity == env.stamp
              && next.authorization == entry.authorization && next.objects == entry.objects
              && next.secure == entry.secure.(counter := Increment(entry.secure.counter), chaining := next.secure.chaining)
  {
    if !entry.authenticated && entry.expected.Some? {
      AuthenticatedExactly(f.cipher, entry.secure, request, entry.expected.value);
    }
  }

  // ----- outside a session

  /** Outside a session only six commands are known; all others are refused without a change. */
  lemma OuterRefuses(f: Foreign, d: Device, request: Frame, env: Env)
    requires request.command !in {0x01, 0x03, 0x04, 0x05, 0x06, 0x0a}
    ensures HandleFrame(f, d, request, env) == (Expire(d, env.now), Frame(0x7f, [InvalidCommand.Code()]))
  {
  }

  /** A malformed frame does nothing, not even to sessions that have timed out. */
  lemma MalformedDoesNothing(f: Foreign, d: Device, encoded: bytes, env: Env)
    requires Parse(encoded).Err?
    ensures HandleEncoded(f, d, encoded, env) == (d, Encode(Frame(0x7f, [Parse(encoded).error.Code()])))
  {
  }
}
