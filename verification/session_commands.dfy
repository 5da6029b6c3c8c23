/** Session objects: what is derived, what may be read, and what is stored. */
module SessionCommands {
  import opened Bytes
  import opened Errors
  import opened Capabilities
  import opened Objects
  import opened Options
  import opened Authorization
  import opened Store
  import opened ForeignCode
  import opened Commands
  import opened Entitlement
  import Cbor
  import Volatile

  /** A handle is eight bytes, most significant first. */
  lemma HandleReadsBack(h: u64)
    ensures |Cbor.BigEndian(h, 8)| == 8 && HandleOf(Cbor.BigEndian(h, 8)) == h
  {
    Cbor.EightBytes();
    Cbor.NumberOfBigEndian(h, 8);
  }

  // ----- sources

  /** A session object that a derivation may start from. */
  predicate Derivable(v: Volatile.Store, h: u64, value: bytes) {
    && h in v && (v[h].flags / 2) % 2 == 1 && !v[h].kind.P256Private? && v[h].value == value
  }

  lemma SecretExactly(v: Volatile.Store, h: u64, value: bytes)
    ensures DerivationSecret(v, h) == Ok(value) <==> Derivable(v, h, value)
  {
  }

  /** The four bytes that describe what is derived: valid flags, a secret or AES kind, and a length
      from 1 to 1024. */
  predicate Described(p: bytes, h: ResultHeader) {
    && |p| >= 4 && p[0] < 8 && h.flags == p[0]
    && (p[1] == 1 || p[1] == 2) && h.kind == (if p[1] == 1 then Volatile.GenericSecret else Volatile.Aes)
    && h.length == Id(p, 2) && 1 <= h.length <= 1024
  }

  lemma HeaderExactly(p: bytes, h: ResultHeader)
    ensures DecodeResultHeader(p) == Ok(h) && CheckResultHeader(h).Ok? <==> Described(p, h)
  {
    if |p| >= 4 {
      IdIsDecoded(p, 2);
    }
  }

  // ----- values

  /** The first bytes of a value, as many as the header says. */
  predicate Begins(x: Derivation, value: bytes) {
    x.header.length <= |value| && x.value == value[..x.header.length]
  }

  /** Joining two session objects: the first named, then the second. */
  ghost predicate Joined(v: Volatile.Store, p: bytes, x: Derivation) {
    |p| == 20 && exists a, b :: Derivable(v, HandleOf(p[4..12]), a) && Derivable(v, HandleOf(p[12..20]), b) && Begins(x, a + b)
  }

  lemma JoinsInOrder(v: Volatile.Store, p: bytes, x: Derivation)
    ensures DeriveFromKeys(v, p) == Ok(x) <==> Described(p, x.header) && Joined(v, p, x)
  {
    HeaderExactly(p, x.header);
    if |p| == 20 {
      SecretOf(v, HandleOf(p[4..12]));
      SecretOf(v, HandleOf(p[12..20]));
    }
  }

  lemma SecretOf(v: Volatile.Store, h: u64)
    ensures forall value :: DerivationSecret(v, h) == Ok(value) <==> Derivable(v, h, value)
  {
  }

  /** Appending the rest of the request to a session object. */
  ghost predicate Appended(v: Volatile.Store, p: bytes, x: Derivation) {
    |p| >= 12 && exists a :: Derivable(v, HandleOf(p[4..12]), a) && Begins(x, a + p[12..])
  }

  /** A cyclic window of a session object, from the bit that the request names. */
  ghost predicate Extracted(v: Volatile.Store, p: bytes, x: Derivation) {
    && |p| == 14
    && exists a :: Derivable(v, HandleOf(p[4..12]), a) && Id(p, 12) < 8 * |a| && x.header.length <= |a|
                   && x.value == Volatile.Extract(a, Id(p, 12), x.header.length)
  }

  ghost predicate Hashed(f: Foreign, v: Volatile.Store, p: bytes, x: Derivation) {
    && |p| == 12 && x.header.length <= 32
    && exists a :: Derivable(v, HandleOf(p[4..12]), a) && Begins(x, f.hash(a))
  }

  lemma AppendsExactly(v: Volatile.Store, p: bytes, x: Derivation)
    ensures DeriveWithData(v, p) == Ok(x) <==> Described(p, x.header) && Appended(v, p, x)
  {
    HeaderExactly(p, x.header);
    if |p| >= 12 {
      SecretOf(v, HandleOf(p[4..12]));
    }
  }

  lemma ExtractsExactly(v: Volatile.Store, p: bytes, x: Derivation)
    ensures DeriveExtract(v, p) == Ok(x) <==> Described(p, x.header) && Extracted(v, p, x)
  {
    HeaderExactly(p, x.header);
    if |p| == 14 {
      SecretOf(v, HandleOf(p[4..12]));
      IdIsDecoded(p, 12);
    }
  }

  lemma HashesExactly(f: Foreign, v: Volatile.Store, p: bytes, x: Derivation)
    ensures DeriveHash(f, v, p) == Ok(x) <==> Described(p, x.header) && Hashed(f, v, p, x)
  {
    HeaderExactly(p, x.header);
    if |p| == 12 {
      SecretOf(v, HandleOf(p[4..12]));
    }
  }

  /** The last bytes of a value. */
  lemma TailExactly(value: bytes, n: nat, tail: bytes)
    ensures Tail(value, n) == Ok(tail) <==> n <= |value| && tail == value[|value| - n..]
  {
  }

  /** A secret agreed with a stored key, which session and key may agree with, or with a session
      object that is a private key and may be derived from. */
  ghost predicate Agreed(f: Foreign, config: DeviceConfig, s: Durable, v: Volatile.Store, auth: SessionAuthorization,
                         source: Source, peer: bytes, secret: bytes)
  {
    match source
    case FromAsymmetric(id) =>
      var k := ObjectKey(AsymmetricKey, id);
      && MayUse(auth, s.objects, k, DERIVE_ECDH) && AlgorithmEnabled(config, s.options, s.objects[k].info.algorithm)
      && f.agreeStored(s.objects[k], peer) == Some(secret)
    case FromVolatile(h) =>
      h in v && (v[h].flags / 2) % 2 == 1 && v[h].kind.P256Private? && f.agreeVolatile(v[h].value, peer) == Some(secret)
    case FromSymmetric(_) => false
  }

  lemma AgreementNeeds(f: Foreign, config: DeviceConfig, s: Durable, v: Volatile.Store, auth: SessionAuthorization,
                       source: Source, peer: bytes, secret: bytes)
    ensures AgreedSecret(f, config, s, v, auth, source, peer) == Ok(secret) <==> Agreed(f, config, s, v, auth, source, peer, secret)
  {
    if source.FromAsymmetric? {
      UsableExactly(config, s, auth, ObjectKey(AsymmetricKey, source.id));
    }
  }

  /** The point of the other party, after its length, to the end of the request. */
  predicate PeerAt(rest: bytes, peer: bytes) {
    |rest| >= 2 && |rest| == 2 + Id(rest, 0) && peer == rest[2..]
  }

  ghost predicate AgreedAt(f: Foreign, config: DeviceConfig, s: Durable, v: Volatile.Store, auth: SessionAuthorization, p: bytes,
                           x: Derivation)
  {
    && |p| >= 4
    && exists part, peer, secret ::
         && SourceAt(p[4..], part) && PeerAt(part.rest, peer) && Agreed(f, config, s, v, auth, part.source, peer, secret)
         && x.header.length <= |secret| && x.value == secret[|secret| - x.header.length..]
  }

  /** Key agreement stores the last bytes of the agreed secret. */
  lemma AgreementTakesTheEnd(f: Foreign, config: DeviceConfig, s: Durable, v: Volatile.Store, auth: SessionAuthorization, p: bytes,
                             x: Derivation)
    requires DeriveAgreement(f, config, s, v, auth, p) == Ok(x)
    ensures Described(p, x.header) && AgreedAt(f, config, s, v, auth, p, x)
  {
    var h := DecodeResultHeader(p).value;
    var part := DecodeSource(p[4..]).value;
    var peer := part.rest[2..];
    var secret := AgreedSecret(f, config, s, v, auth, part.source, peer).value;
    SourceExactly(p[4..], part);
    AgreementNeeds(f, config, s, v, auth, part.source, peer, secret);
    HeaderExactly(p, h);
    TailExactly(secret, h.length, Tail(secret, h.length).value);
    assert PeerAt(part.rest, peer);
  }

  /** And it succeeds whenever there is such a secret. */
  lemma AgreementSucceeds(f: Foreign, config: DeviceConfig, s: Durable, v: Volatile.Store, auth: SessionAuthorization, p: bytes,
                          x: Derivation)
    requires Described(p, x.header) && AgreedAt(f, config, s, v, auth, p, x)
    ensures DeriveAgreement(f, config, s, v, auth, p) == Ok(x)
  {
    var part, peer, secret :|
      && SourceAt(p[4..], part) && PeerAt(part.rest, peer) && Agreed(f, config, s, v, auth, part.source, peer, secret)
      && x.header.length <= |secret| && x.value == secret[|secret| - x.header.length..];
    SourceExactly(p[4..], part);
    AgreementNeeds(f, config, s, v, auth, part.source, peer, secret);
    HeaderExactly(p, x.header);
    TailExactly(secret, x.header.length, x.value);
  }

  /** The key of a counter KDF: a stored AES key that session and key may encrypt with, or a session
      object that may be derived from. */
  ghost predicate KdfKey(config: DeviceConfig, s: Durable, v: Volatile.Store, auth: SessionAuthorization, source: Source, key: bytes) {
    match source
    case FromSymmetric(id) =>
      var k := ObjectKey(SymmetricKey, id);
      && MayUse(auth, s.objects, k, ENCRYPT_ECB) && AlgorithmEnabled(config, s.options, s.objects[k].info.algorithm)
      && 50 <= s.objects[k].info.algorithm <= 52 && s.objects[k].material == Secret(key)
    case FromVolatile(h) => Derivable(v, h, key)
    case FromAsymmetric(_) => false
  }

  lemma KdfNeeds(config: DeviceConfig, s: Durable, v: Volatile.Store, auth: SessionAuthorization, source: Source, key: bytes)
    ensures KdfSecret(config, s, v, auth, source) == Ok(key) <==> KdfKey(config, s, v, auth, source, key)
  {
    match source
    case FromSymmetric(id) => UsableExactly(config, s, auth, ObjectKey(SymmetricKey, id));
    case FromVolatile(h) => SecretExactly(v, h, key);
    case FromAsymmetric(_) =>
  }

  /** Where a derivation takes its key from: eight bytes of handle after 0, an asymmetric key's
      identifier after 1, a symmetric key's after 2. */
  predicate SourceAt(p: bytes, part: SourcePart) {
    && |p| >= 3
    && (if p[0] == 0 then |p| >= 9 && part == SourcePart(FromVolatile(HandleOf(p[1..9])), p[9..])
        else if p[0] == 1 then part == SourcePart(FromAsymmetric(Id(p, 1)), p[3..])
        else p[0] == 2 && part == SourcePart(FromSymmetric(Id(p, 1)), p[3..]))
  }

  lemma SourceExactly(p: bytes, part: SourcePart)
    ensures DecodeSource(p) == Ok(part) <==> SourceAt(p, part)
  {
    if |p| >= 3 {
      IdIsDecoded(p, 1);
    }
  }

  /** A counter KDF gives the library the key and everything after the source. */
  ghost predicate KdfAt(f: Foreign, config: DeviceConfig, s: Durable, v: Volatile.Store, auth: SessionAuthorization, p: bytes,
                        part: SourcePart, key: bytes, x: Derivation)
  {
    && Described(p, x.header) && SourceAt(p[4..], part) && f.kdfRefusal(part.rest).None?
    && KdfKey(config, s, v, auth, part.source, key) && f.counterKdf(key, part.rest, x.header.length) == Some(x.value)
  }

  lemma KdfDerives(f: Foreign, config: DeviceConfig, s: Durable, v: Volatile.Store, auth: SessionAuthorization, p: bytes, x: Derivation)
    requires DeriveCounterKdf(f, config, s, v, auth, p) == Ok(x)
    ensures exists part, key :: KdfAt(f, config, s, v, auth, p, part, key, x)
  {
    var h := DecodeResultHeader(p).value;
    HeaderExactly(p, h);
    var part := DecodeSource(p[4..]).value;
    SourceExactly(p[4..], part);
    var key := KdfSecret(config, s, v, auth, part.source).value;
    KdfNeeds(config, s, v, auth, part.source, key);
    assert KdfAt(f, config, s, v, auth, p, part, key, x);
  }

  lemma KdfSucceeds(f: Foreign, config: DeviceConfig, s: Durable, v: Volatile.Store, auth: SessionAuthorization, p: bytes,
                    part: SourcePart, key: bytes, x: Derivation)
    requires KdfAt(f, config, s, v, auth, p, part, key, x)
    ensures DeriveCounterKdf(f, config, s, v, auth, p) == Ok(x)
  {
    HeaderExactly(p, x.header);
    SourceExactly(p[4..], part);
    KdfNeeds(config, s, v, auth, part.source, key);
  }

  // ----- which operation is which

  /** The operation byte of a session-object command. */
  lemma OperationsExactly(f: Foreign, config: DeviceConfig, s: Durable, v: Volatile.Store, auth: SessionAuthorization,
                          operation: byte, p: bytes, env: Env)
    ensures
      var done := HandleVolatile(f, config, s, Some(v), auth, [operation] + p, env);
      if operation == 0x01 then done == AnswerWith(VolatileRead(v, p))
      else if operation == 0x02 then done == AnswerWith(VolatileVerify(f, v, p))
      else if operation == 0x46 then done == VolatileGenerate(f, v, p, env)
      else if operation == 0x58 then done == VolatileDelete(v, p)
      else if operation == 0x03 then done == Stored(v, DeriveFromKeys(v, p), env)
      else if operation == 0x04 then done == Stored(v, DeriveWithData(v, p), env)
      else if operation == 0x05 then done == Stored(v, DeriveExtract(v, p), env)
      else if operation == 0x06 then done == Stored(v, DeriveHash(f, v, p), env)
      else if operation == 0x07 then done == Stored(v, DeriveCounterKdf(f, config, s, v, auth, p), env)
      else if operation == 0x57 then done == Stored(v, DeriveAgreement(f, config, s, v, auth, p), env)
      else done.Err?
  {
    var d := [operation] + p;
    assert d[0] == operation && d[1..] == p;
  }

  function Stored(v: Volatile.Store, x: Result<Derivation>, env: Env): Result<Done> {
    if x.Err? then Err(x.error) else AddDerived(v, x.value.header, x.value.value, env)
  }

  // ----- storing and reading

  /** A derived object is stored as described, under the handle that is the answer. */
  lemma DerivedIsStored(v: Volatile.Store, h: ResultHeader, value: bytes, env: Env)
    requires AddDerived(v, h, value, env).Ok?
    ensures
      var done := AddDerived(v, h, value, env).value;
      && done.effect.AddVolatile?
      && done.effect.object_ == Volatile.SessionObject(h.kind, h.flags, value)
      && 1 <= |value| <= 1024 && (h.kind.Aes? ==> |value| == 16 || |value| == 24 || |value| == 32)
      && |done.data| == 8 && HandleOf(done.data) == done.effect.handle
      && done.effect.handle != 0 && done.effect.handle !in v && |v| < 64
  {
    Volatile.FirstFreeIsFresh(v, env.handles);
    var done := AddDerived(v, h, value, env).value;
    HandleReadsBack(done.effect.handle);
    assert done.data == Cbor.BigEndian(done.effect.handle, 8);
  }

  /** Reading needs the readable flag and gives the value. */
  lemma ReadExactly(v: Volatile.Store, p: bytes, value: bytes)
    ensures VolatileRead(v, p) == Ok(value)
            <==> && |p| == 8 && HandleOf(p) in v
                 && v[HandleOf(p)].flags % 2 == 1 && !v[HandleOf(p)].kind.P256Private? && v[HandleOf(p)].value == value
  {
  }

  /** Verifying a CMAC needs an AES object with the verify flag, and tells whether the signature is
      the beginning of the MAC. */
  predicate Verifies(f: Foreign, v: Volatile.Store, p: bytes, answer: byte)
    requires |p| >= 9
  {
    var n := p[8] as int;
    && |p| >= 9 + n && 1 <= n <= 16
    && HandleOf(p[..8]) in v
    && var o := v[HandleOf(p[..8])];
       && o.kind.Aes? && (o.flags / 4) % 2 == 1
       && answer == if p[9..9 + n] <= f.cipher.cmac(o.value, p[9 + n..]) then 1 else 0
  }

  lemma VerifiesExactly(f: Foreign, v: Volatile.Store, p: bytes, answer: byte)
    requires f.Lawful()
    ensures VolatileVerify(f, v, p) == Ok([answer]) <==> |p| >= 9 && Verifies(f, v, p, answer)
    ensures VolatileVerify(f, v, p).Ok? ==> |VolatileVerify(f, v, p).value| == 1
  {
  }

  lemma {:induction false} FirstFreeExists(v: Volatile.Store, draws: seq<u64>)
    ensures Volatile.FirstFree(v, draws).Some? <==> exists i :: 0 <= i < |draws| && draws[i] != 0 && draws[i] !in v
  {
    if draws != [] && (draws[0] == 0 || draws[0] in v) {
      FirstFreeExists(v, draws[1..]);
      if i :| 0 <= i < |draws| && draws[i] != 0 && draws[i] !in v {
        assert draws[1..][i - 1] == draws[i];
      }
    }
  }

  /** A value can be stored exactly when it suits its kind and there is room and a handle for it. */
  lemma StoresExactly(v: Volatile.Store, h: ResultHeader, value: bytes, env: Env)
    ensures AddDerived(v, h, value, env).Ok?
            <==> && 1 <= |value| <= 1024 && !h.kind.P256Private? && (h.kind.Aes? ==> |value| in {16, 24, 32})
                 && |v| < 64 && exists i :: 0 <= i < |env.handles| && env.handles[i] != 0 && env.handles[i] !in v
  {
    FirstFreeExists(v, env.handles);
  }

  /** What was derived with the readable flag reads back by the handle given. */
  lemma DerivedReadsBack(v: Volatile.Store, h: ResultHeader, value: bytes, env: Env)
    requires AddDerived(v, h, value, env).Ok? && h.flags % 2 == 1
    ensures
      var done := AddDerived(v, h, value, env).value;
      VolatileRead(ApplyVolatile(v, done.effect), done.data) == Ok(value)
  {
    var done := AddDerived(v, h, value, env).value;
    DerivedIsStored(v, h, value, env);
    ReadExactly(ApplyVolatile(v, done.effect), done.data, value);
  }

  /** A generated key pair is stored as described; the answer is its handle and public key. */
  lemma GeneratedIsStored(f: Foreign, v: Volatile.Store, p: bytes, env: Env)
    requires VolatileGenerate(f, v, p, env).Ok?
    ensures
      var done := VolatileGenerate(f, v, p, env).value;
      && |p| == 2 && p[0] < 8 && (p[0] / 2) % 2 == 1 && p[1] == 12
      && f.newP256(env.seed).Some? && done.effect.AddVolatile?
      && var key := f.newP256(env.seed).value;
         && done.effect.object_ == Volatile.SessionObject(Volatile.P256Private, p[0], key)
         && |done.data| >= 8 && HandleOf(done.data[..8]) == done.effect.handle && done.data[8..] == f.p256Public(key)
  {
    var done := VolatileGenerate(f, v, p, env).value;
    HandleReadsBack(done.effect.handle);
    assert done.data[..8] == Cbor.BigEndian(done.effect.handle, 8);
  }

  /** Deleting removes the very object named. */
  lemma DeleteExactly(v: Volatile.Store, p: bytes)
    ensures VolatileDelete(v, p).Ok? <==> |p| == 8 && HandleOf(p) in v
    ensures VolatileDelete(v, p).Ok? ==> VolatileDelete(v, p).value == Done([], DropVolatile(HandleOf(p)))
  {
  }
}
