/** The answers of commands, byte by byte, and the changes that commands without keys make. */
module Answers {
  import opened Bytes
  import opened Errors
  import opened Capabilities
  import opened Algorithms
  import opened Frames
  import opened Objects
  import opened Protocol
  import opened Options
  import opened Authorization
  import opened Store
  import opened ForeignCode
  import opened Commands
  import opened Entitlement
  import opened Machine
  import Volatile

  // ----- object information

  /** The 66 bytes that describe an object. */
  predicate Describes(output: bytes, info: ObjectInfo) {
    && |output| == 66
    && output[..8] == info.capabilities
    && Id(output, 8) == info.id && Id(output, 10) == info.length && Id(output, 12) == info.domains
    && 1 <= output[14] <= 9 && TYPES[output[14] - 1] == info.objectType
    && output[15] == info.algorithm && output[16] == info.sequence && output[17] == info.origin
    && |info.labelBytes| <= 40
    && output[18..18 + |info.labelBytes|] == info.labelBytes
    && (forall i | 18 + |info.labelBytes| <= i < 58 :: output[i] == 0)
    && output[58..] == info.delegated
  }

  lemma NumbersLast(output: bytes, before: bytes, n: u16, after: bytes)
    requires output == before + EncodeU16(n) + after
    ensures |output| >= |before| + 2 && Id(output, |before|) == n
  {
    assert output[|before|] == EncodeU16(n)[0] && output[|before| + 1] == EncodeU16(n)[1];
  }

  lemma InfoDescribes(info: ObjectInfo)
    requires |info.labelBytes| <= 40
    ensures Describes(EncodeInfo(info), info)
  {
    var zeros := Zeros(40 - |info.labelBytes|);
    var tail := [info.objectType.Byte(), info.algorithm, info.sequence, info.origin] + info.labelBytes + zeros + info.delegated;
    var out := EncodeInfo(info);
    assert out == info.capabilities + EncodeU16(info.id) + EncodeU16(info.length) + EncodeU16(info.domains) + tail;
    NumbersLast(out, info.capabilities, info.id, EncodeU16(info.length) + EncodeU16(info.domains) + tail);
    NumbersLast(out, info.capabilities + EncodeU16(info.id), info.length, EncodeU16(info.domains) + tail);
    NumbersLast(out, info.capabilities + EncodeU16(info.id) + EncodeU16(info.length), info.domains, tail);
    TailDescribes(info, out, info.capabilities + EncodeU16(info.id) + EncodeU16(info.length) + EncodeU16(info.domains), zeros);
  }

  lemma TailDescribes(info: ObjectInfo, out: bytes, head: bytes, zeros: bytes)
    requires |info.labelBytes| <= 40 && |head| == 14 && zeros == Zeros(40 - |info.labelBytes|)
    requires out == head + ([info.objectType.Byte(), info.algorithm, info.sequence, info.origin] + info.labelBytes + zeros + info.delegated)
    ensures |out| == 66 && out[..8] == head[..8]
    ensures 1 <= out[14] <= 9 && TYPES[out[14] - 1] == info.objectType
    ensures out[15] == info.algorithm && out[16] == info.sequence && out[17] == info.origin
    ensures out[18..18 + |info.labelBytes|] == info.labelBytes
    ensures forall i | 18 + |info.labelBytes| <= i < 58 :: out[i] == 0
    ensures out[58..] == info.delegated
  {
    var n := |info.labelBytes|;
    TypeByte(info.objectType);
    forall i | 18 + n <= i < 58
      ensures out[i] == 0
    {
      assert out[i] == zeros[i - 18 - n];
    }
  }

  lemma TypeByte(t: ObjectType)
    ensures 1 <= t.Byte() <= 9 && TYPES[t.Byte() - 1] == t
  {
  }

  /** An object's info less what the firmware does not know. */
  predicate Narrowed(config: DeviceConfig, info: ObjectInfo, told: ObjectInfo) {
    && told == info.(capabilities := told.capabilities, delegated := told.delegated)
    && told.capabilities == RetainFirmwareSupported(config.firmware, info.capabilities)
    && told.delegated == RetainFirmwareSupported(config.firmware, info.delegated)
  }

  /** GetObjectInfo describes the very object named. */
  lemma InfoAnswers(config: DeviceConfig, s: Durable, auth: SessionAuthorization, d: bytes) returns (told: ObjectInfo)
    requires HandleInfo(config, s, auth, d).Ok?
    requires forall k | k in s.objects :: |s.objects[k].info.labelBytes| <= 40
    ensures |d| == 3 && Typed(d) && TypedKey(d) in s.objects
    ensures Narrowed(config, s.objects[TypedKey(d)].info, told) && Describes(HandleInfo(config, s, auth, d).value, told)
  {
    IdIsDecoded(d, 0);
    TypeExactly(d);
    var info := s.objects[TypedKey(d)].info;
    told := info.(capabilities := RetainFirmwareSupported(config.firmware, info.capabilities),
                  delegated := RetainFirmwareSupported(config.firmware, info.delegated));
    InfoDescribes(told);
  }

  // ----- commands without keys

  lemma EchoAnswers(f: Foreign, config: DeviceConfig, s: Durable, v: Option<Volatile.Store>, auth: SessionAuthorization, d: bytes, env: Env)
    ensures ExecuteResult(f, config, s, v, auth, Frame(0x01 /* Echo */, d), env) == Ok(Done(d, NoEffect))
  {
  }

  lemma CloseAnswers(f: Foreign, config: DeviceConfig, s: Durable, v: Option<Volatile.Store>, auth: SessionAuthorization, env: Env)
    ensures ExecuteResult(f, config, s, v, auth, Frame(0x40 /* CloseSession */, []), env) == Ok(Done([], NoEffect))
  {
  }

  /** Random bytes are as many as asked for. */
  lemma RandomAnswers(f: Foreign, config: DeviceConfig, s: Durable, v: Option<Volatile.Store>, auth: SessionAuthorization, d: bytes, env: Env)
    requires |d| == 2 && GET_PSEUDO_RANDOM in Members(auth.capabilities)
    ensures ExecuteResult(f, config, s, v, auth, Frame(0x51 /* GetPseudoRandom */, d), env)
            == Ok(Done(f.random(env.seed, Id(d, 0)), NoEffect))
  {
  }

  /** Deletion removes the very object named. */
  lemma DeleteAnswers(f: Foreign, config: DeviceConfig, s: Durable, v: Option<Volatile.Store>, auth: SessionAuthorization, d: bytes, env: Env)
    requires forall k | k in s.objects :: s.objects[k].info.Key() == k
    requires ExecuteResult(f, config, s, v, auth, Frame(0x58 /* DeleteObject */, d), env).Ok?
    ensures |d| == 3 && Typed(d)
    ensures ExecuteResult(f, config, s, v, auth, Frame(0x58, d), env) == Ok(Done([], RemoveObject(TypedKey(d))))
  {
    OnlyEntitledRuns(f, config, s, v, auth, Frame(0x58, d), env);
    RunIsAuthorized(f, config, s, v, auth, Frame(0x58, d), env);
    IdIsDecoded(d, 0);
    TypeExactly(d);
  }

  /** Trimming the log uses the very index sent. */
  lemma TrimAnswers(f: Foreign, config: DeviceConfig, s: Durable, v: Option<Volatile.Store>, auth: SessionAuthorization, d: bytes, env: Env)
    requires |d| == 2 && SET_OPTION in Members(auth.capabilities)
    ensures ExecuteResult(f, config, s, v, auth, Frame(0x67 /* SetLogIndex */, d), env) == Ok(Done([], TrimLog(Id(d, 0))))
  {
  }

  /** A reset renews the device key with one the library draws. */
  lemma ResetAnswers(f: Foreign, config: DeviceConfig, s: Durable, v: Option<Volatile.Store>, auth: SessionAuthorization, env: Env)
    requires RESET_DEVICE in Members(auth.capabilities)
    ensures
      var key := f.keys.generate(EC_P256, env.seed);
      ExecuteResult(f, config, s, v, auth, Frame(0x08 /* ResetDevice */, []), env)
      == if key.Some? then Ok(Done([], Reset(key.value))) else Err(StorageFailed)
  {
  }

  /** GetStorageInfo: records in all and free, pages in all and free, and the page size. */
  lemma StorageAnswers(s: Durable)
    requires |s.objects| <= 1024
    ensures
      var r := HandleStorage(s, []);
      && r.Ok? && |r.value| == 10
      && Id(r.value, 0) == 256 && Id(r.value, 2) == (if |s.objects| <= 256 then 256 - |s.objects| else 0)
      && Id(r.value, 4) == 1024 && Id(r.value, 6) == 1024 - |s.objects| && Id(r.value, 8) == 126
  {
  }

  /** The device's own public key, and its part number. */
  lemma DeviceAnswers(f: Foreign, config: DeviceConfig, s: Durable)
    ensures HandlePlain(f, config, s, 0x0a /* GetDevicePublicKey */, []) == Ok(f.devicePublicKey(s.deviceKey))
    ensures HandlePlain(f, config, s, 0x06 /* GetDeviceInfo */, [1]) == Ok(config.partNumber)
  {
  }

  /** Blinking answers nothing, and changes nothing. */
  lemma BlinkAnswers(f: Foreign, config: DeviceConfig, s: Durable, v: Option<Volatile.Store>, auth: SessionAuthorization, n: byte, env: Env)
    ensures ExecuteResult(f, config, s, v, auth, Frame(0x6b /* BlinkDevice */, [n]), env) == Ok(Done([], NoEffect))
  {
  }

  // ----- the firmware profile

  /** The commands and capabilities that only some firmware knows. */
  lemma ProfileExactly(w: Firmware, c: CommandCode, p: Capability)
    ensures SupportedCommand(w, c)
            <==> (c == 0x0c ==> w.prefixedEcdh) && (c == 0x0b ==> w.sessionObjects) && (0x0d <= c <= 0x11 ==> w.postQuantum)
    ensures SupportedCapability(w, p)
            <==> (p == 0x38 ==> w.prefixedEcdh) && (p == 0x39 ==> w.sessionObjects) && (0x3a <= p <= 0x3e ==> w.postQuantum)
  {
  }

  /** The key that a reset installs: number 1, every domain and every capability. */
  lemma FactoryKeyExactly(keys: StaticKeys)
    ensures
      var r := FactoryRecord(keys);
      && r.info.Key() == ObjectKey(AuthenticationKey, 1) && r.info.domains == 0xffff && r.info.algorithm == 38
      && r.info.length == 40 && r.material == Authentication(SymmetricKeys(keys))
      && (forall c: Capability | 0 <= c < 64 :: c in Members(r.info.capabilities) && c in Members(r.info.delegated))
  {
    AllContained();
  }

  lemma AllContained()
    ensures forall c: Capability | 0 <= c < 64 :: Contains(ALL_CAPABILITIES, c)
  {
    forall c: Capability | 0 <= c < 64
      ensures Contains(ALL_CAPABILITIES, c)
    {
    }
  }

  // ----- device information

  /** Which algorithms may be used: known to the firmware, configured, not toggled off, and not
      among the five that FIPS mode forbids. */
  lemma EnabledExactly(config: DeviceConfig, o: DeviceOptions, a: byte)
    ensures AlgorithmEnabled(config, o, a)
            <==> && 1 <= a <= 67
                 && (56 <= a <= 58 ==> config.firmware.extendedCurves) && (59 <= a ==> config.firmware.postQuantum)
                 && a in config.algorithms
                 && !(a in o.algorithmToggle && o.algorithmToggle[a] == 0)
                 && !(o.fipsMode != 0 && a in {1, 5, 15, 23, 48})
  {
  }

  lemma {:induction false} EnabledListed(config: DeviceConfig, o: DeviceOptions, algorithms: seq<byte>, a: byte)
    ensures a in EnabledAlgorithms(config, o, algorithms) <==> a in algorithms && AlgorithmEnabled(config, o, a)
  {
    if algorithms != [] {
      EnabledListed(config, o, algorithms[1..], a);
      assert algorithms == [algorithms[0]] + algorithms[1..];
    }
  }

  /** GetDeviceInfo names version, serial number, log size and use, and exactly the enabled algorithms. */
  lemma DeviceInfoAnswers(f: Foreign, config: DeviceConfig, s: Durable)
    requires |config.version| == 3 && |s.log.entries| <= 255
    ensures
      var r := HandlePlain(f, config, s, 0x06, []);
      && r.Ok? && |r.value| >= 9 && r.value[..3] == config.version
      && Id(r.value, 3) as int * 0x1_0000 + Id(r.value, 5) == config.serial
      && r.value[7] == config.logCapacity && r.value[8] == |s.log.entries|
      && forall a: byte :: a in r.value[9..] <==> AlgorithmEnabled(config, s.options, a)
  {
    var r := HandlePlain(f, config, s, 0x06, []);
    var listed := EnabledAlgorithms(config, s.options, config.algorithms);
    assert r.value == config.version + EncodeU32(config.serial) + [config.logCapacity, |s.log.entries|] + listed;
    assert r.value[9..] == listed;
    forall a: byte
      ensures a in listed <==> AlgorithmEnabled(config, s.options, a)
    {
      EnabledListed(config, s.options, config.algorithms, a);
    }
  }

  // ----- opening sessions

  /** A session's powers are exactly those of the key it was opened with. */
  lemma SnapshotExactly(objects: ObjectMap, id: u16, a: SessionAuthorization)
    ensures AuthorizationOf(objects, id) == Ok(a)
            <==> && var k := ObjectKey(AuthenticationKey, id);
                    && k in objects && objects[k].material.Authentication?
                    && a.keyId == id && a.capabilities == objects[k].info.capabilities
                    && a.delegated == objects[k].info.delegated && a.domains == objects[k].info.domains
  {
  }
}
