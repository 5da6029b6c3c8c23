/** Durable device state and the primitive changes a command can make to it. */
module Store {
  import opened Bytes
  import opened Errors
  import opened Capabilities
  import opened Algorithms
  import opened Objects
  import opened Options
  import opened Audit
  import opened Authorization
  import Volatile

  type ObjectMap = map<ObjectKey, ObjectRecord>

  datatype Durable = Durable(
    objects: ObjectMap,
    generations: map<u16, u64>,
    options: DeviceOptions,
    log: Log,
    deviceKey: bytes)

  const FACTORY_KEY := ObjectKey(AuthenticationKey, 1)

  /** "DEFAULT AUTHKEY CHANGE THIS" */
  const FACTORY_LABEL: bytes := [
    0x44, 0x45, 0x46, 0x41, 0x55, 0x4c, 0x54, 0x20, 0x41, 0x55, 0x54, 0x48, 0x4b, 0x45,
    0x59, 0x20, 0x43, 0x48, 0x41, 0x4e, 0x47, 0x45, 0x20, 0x54, 0x48, 0x49, 0x53]

  type StaticKeys = k: bytes | |k| == 32 witness Zeros(32)

  function FactoryRecord(keys: StaticKeys): ObjectRecord {
    ObjectRecord(
      ObjectInfo(ALL_CAPABILITIES, 1, 40, 0xffff, AuthenticationKey, AES128_YUBICO_AUTHENTICATION, 0, 2,
                 FACTORY_LABEL, ALL_CAPABILITIES),
      Authentication(SymmetricKeys(keys)))
  }

  function FactoryDurable(keys: StaticKeys, deviceKey: bytes): Durable {
    Durable(map[FACTORY_KEY := FactoryRecord(keys)], map[1 := 0], DEFAULT_OPTIONS, EMPTY_LOG, deviceKey)
  }

  // ----- identifiers

  predicate IdFree(objects: ObjectMap, id: u16) {
    id != 0 && id != 0xffff && forall k | k in objects :: k.id != id
  }

  function FirstAvailable(objects: ObjectMap, draws: seq<u16>): Result<u16> {
    if draws == [] then Err(StorageFailed)
    else if IdFree(objects, draws[0]) then Ok(draws[0])
    else FirstAvailable(objects, draws[1..])
  }

  function ResolveId(objects: ObjectMap, t: ObjectType, requested: u16, draws: seq<u16>): Result<u16> {
    if requested == 0xffff then Err(InvalidId)
    else if requested != 0 then
      if ObjectKey(t, requested) in objects then Err(ObjectExists) else Ok(requested)
    else FirstAvailable(objects, draws)
  }

  method SampleId(objects: ObjectMap, draws: seq<u16>) returns (r: Result<u16>)
    ensures r == FirstAvailable(objects, draws)
    ensures r.Ok? ==> IdFree(objects, r.value)
  {
    var i := 0;
    while i < |draws|
      invariant 0 <= i <= |draws|
      invariant FirstAvailable(objects, draws) == FirstAvailable(objects, draws[i..])
    {
      assert draws[i..][1..] == draws[i + 1..];
      if IdFree(objects, draws[i]) {
        return Ok(draws[i]);
      }
      i := i + 1;
    }
    r := Err(StorageFailed);
  }

  lemma {:induction false} FirstAvailableIsFree(objects: ObjectMap, draws: seq<u16>)
    requires FirstAvailable(objects, draws).Ok?
    ensures IdFree(objects, FirstAvailable(objects, draws).value)
  {
    if !IdFree(objects, draws[0]) {
      FirstAvailableIsFree(objects, draws[1..]);
    }
  }

  /** A resolved identifier never names an object of that type. */
  lemma ResolvedIsNew(objects: ObjectMap, t: ObjectType, requested: u16, draws: seq<u16>)
    requires ResolveId(objects, t, requested, draws).Ok?
    ensures
      var id := ResolveId(objects, t, requested, draws).value;
      id != 0 && id != 0xffff && ObjectKey(t, id) !in objects
  {
    if requested == 0 {
      FirstAvailableIsFree(objects, draws);
    }
  }

  // ----- writing

  /** The checks of the one function that writes objects. */
  function CheckWrite(lib: KeyLibrary, r: ObjectRecord): Result<ObjectRecord> {
    var promoted :- Promote(lib, r);
    var _ :- Validate(promoted);
    if promoted.info.objectType.PublicWrapKey? then
      if !IsRsaKey(promoted.info.algorithm) || !promoted.material.PublicModulus? then Err(InvalidData)
      else
        var problem := lib.publicKeyError(promoted.material.value, 8 * AsymmetricKeyLength(promoted.info.algorithm).value);
        if problem.Some? then Err(problem.value) else Ok(promoted)
    else Ok(promoted)
  }

  /** Imports validate a private RSA key first. */
  function CheckImport(lib: KeyLibrary, r: ObjectRecord): Result<ObjectRecord> {
    var promoted :- Promote(lib, r);
    var _ :- Validate(promoted);
    if promoted.material.PrivateKey? && IsRsaKey(promoted.material.algorithm) then
      if promoted.material.algorithm != promoted.info.algorithm then Err(InvalidData)
      else
        var k :- lib.validateImport(promoted.info.algorithm, promoted.material.encoded);
        CheckWrite(lib, promoted.(material := PrivateKey(promoted.info.algorithm, k)))
    else CheckWrite(lib, promoted)
  }

  lemma CheckWriteKeeps(lib: KeyLibrary, r: ObjectRecord)
    requires lib.Lawful() && CheckWrite(lib, r).Ok?
    requires r.material.PrivateKey? ==> Settled(lib, r)
    ensures Sound(lib, CheckWrite(lib, r).value) && CheckWrite(lib, r).value.info == r.info
    ensures !r.info.HoldsPrivateKey() ==> CheckWrite(lib, r).value.material == r.material
  {
    PromoteSettles(lib, r);
  }

  lemma CheckImportKeeps(lib: KeyLibrary, r: ObjectRecord)
    requires lib.Lawful() && CheckImport(lib, r).Ok?
    requires r.material.PrivateKey? ==> Settled(lib, r)
    ensures Sound(lib, CheckImport(lib, r).value) && CheckImport(lib, r).value.info == r.info
    ensures !r.info.HoldsPrivateKey() ==> CheckImport(lib, r).value.material == r.material
  {
    PromoteSettles(lib, r);
    var promoted := Promote(lib, r).value;
    if promoted.material.PrivateKey? && IsRsaKey(promoted.material.algorithm) {
      var k := lib.validateImport(promoted.info.algorithm, promoted.material.encoded).value;
      CheckWriteKeeps(lib, promoted.(material := PrivateKey(promoted.info.algorithm, k)));
    } else {
      CheckWriteKeeps(lib, promoted);
    }
  }

  function NextGeneration(generations: map<u16, u64>, id: u16): u64 {
    if id in generations then (generations[id] + 1) % U64_MODULUS else 0
  }

  function Sequenced(generations: map<u16, u64>, r: ObjectRecord): ObjectRecord {
    r.(info := r.info.(sequence := NextGeneration(generations, r.info.id) % 0x100))
  }

  // ----- effects

  datatype Effect =
    | NoEffect
    | WriteObject(record: ObjectRecord)
    | RemoveObject(key: ObjectKey)
    | ReplaceOptions(options: DeviceOptions)
    | TrimLog(index: u16)
    | Reset(deviceKey: bytes)
    | AddVolatile(handle: u64, object_: Volatile.SessionObject)
    | DropVolatile(handle: u64)

  function ApplyDurable(keys: StaticKeys, s: Durable, e: Effect): Durable {
    match e
    case WriteObject(r) =>
      s.(objects := s.objects[r.info.Key() := Sequenced(s.generations, r)],
         generations := s.generations[r.info.id := NextGeneration(s.generations, r.info.id)])
    case RemoveObject(k) => s.(objects := s.objects - {k})
    case ReplaceOptions(o) => s.(options := o)
    case TrimLog(i) => s.(log := Trim(s.log, i))
    case Reset(deviceKey) => FactoryDurable(keys, deviceKey)
    case _ => s
  }

  function ApplyVolatile(v: Volatile.Store, e: Effect): Volatile.Store {
    match e
    case AddVolatile(h, o) => v[h := o]
    case DropVolatile(h) => v - {h}
    case _ => v
  }

  predicate ChangesDurable(e: Effect) {
    !e.NoEffect? && !e.AddVolatile? && !e.DropVolatile?
  }

  // ----- the order in which the store is walked

  const KEY_SPACE := 10 * 0x1_0000

  function KeyAt(n: nat): Option<ObjectKey>
    requires n < KEY_SPACE
  {
    var t := TypeFromByte(n / 0x1_0000);
    if t.None? then None else Some(ObjectKey(t.value, n % 0x1_0000))
  }

  function PositionOf(k: ObjectKey): (n: nat)
    ensures n < KEY_SPACE && KeyAt(n) == Some(k)
  {
    k.objectType.Byte() * 0x1_0000 + k.id
  }

  /** Objects whose key position is below `n`, in key order. */
  function RecordsBelow(objects: ObjectMap, n: nat): seq<ObjectRecord>
    requires n <= KEY_SPACE
  {
    if n == 0 then []
    else
      var k := KeyAt(n - 1);
      RecordsBelow(objects, n - 1) + if k.Some? && k.value in objects then [objects[k.value]] else []
  }

  function InOrder(objects: ObjectMap): seq<ObjectRecord> {
    RecordsBelow(objects, KEY_SPACE)
  }

  lemma RecordsNext(objects: ObjectMap, n: nat)
    requires n < KEY_SPACE
    ensures
      var k := KeyAt(n);
      RecordsBelow(objects, n + 1)
      == if k.Some? && k.value in objects then RecordsBelow(objects, n) + [objects[k.value]] else RecordsBelow(objects, n)
  {
    assert RecordsBelow(objects, n) + [] == RecordsBelow(objects, n);
  }

  lemma KeyAtPosition(n: nat, k: ObjectKey)
    requires n < KEY_SPACE && KeyAt(n) == Some(k)
    ensures PositionOf(k) == n
  {
    TypeByteExact(n / 0x1_0000, k.objectType);
  }

  /** Induction over key positions. */
  lemma {:induction false} Climb(holds: nat -> bool, n: nat)
    requires holds(0) && forall k: nat | k < n && holds(k) :: holds(k + 1)
    ensures holds(n)
  {
    if n > 0 {
      Climb(holds, n - 1);
    }
  }

  /** The objects a session can see. */
  function Visible(auth: SessionAuthorization, objects: ObjectMap): ObjectMap {
    map k | k in objects && auth.CanSee(objects[k].info) :: objects[k]
  }
}
