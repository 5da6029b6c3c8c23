/** The saved image of a device, its migration and its restoration. */
module Persistence {
  import opened Bytes
  import opened Errors
  import opened Algorithms
  import opened Frames
  import opened Objects
  import opened Options
  import opened Protocol
  import opened Authorization
  import opened Store
  import opened ForeignCode
  import opened Commands
  import opened WrappedObjects
  import opened Discipline
  import opened Machine
  import Audit
  import Volatile

  const SCHEMA := "virtual-yubihsm-state"
  const VERSION: u16 := 3

  /** The image as a value; `ImageCodec` below turns it into bytes. */
  datatype Image = Image(
    schema: string,
    version: u16,
    config: DeviceConfig,
    objects: seq<StoredRecord>,
    deviceKey: bytes,
    epoch: u64,
    generations: map<u16, u64>,
    options: DeviceOptions,
    log: Audit.Log)

  /** Records in another form, in the same order. */
  function Forms(form: ObjectRecord -> StoredRecord, records: seq<ObjectRecord>): seq<StoredRecord> {
    seq(|records|, i requires 0 <= i < |records| => form(records[i]))
  }

  function Save(d: Device): Image {
    Image(SCHEMA, VERSION, d.config, Forms(ToStored, InOrder(d.durable.objects)), d.durable.deviceKey, d.epoch,
          d.durable.generations, d.durable.options, d.durable.log)
  }

  /** Version 2 predates today's Ed25519 length and the overhead of the other key types. */
  function VersionTwoLength(r: ObjectRecord): Result<nat> {
    if r.info.objectType.AsymmetricKey? then
      if r.info.algorithm == ED25519 then Ok(64) else FromOption(AsymmetricObjectLength(r.info.algorithm), InvalidData)
    else if r.info.objectType.WrapKey? && IsRsaKey(r.info.algorithm) then
      FromOption(AsymmetricObjectLength(r.info.algorithm), InvalidData)
    else Ok(r.material.Length())
  }

  function PreviousLength(version: u16, stored: StoredRecord, r: ObjectRecord): Result<nat> {
    if version == 1 then Ok(stored.material.Length()) else VersionTwoLength(r)
  }

  /** An older image must carry the length its version wrote; then it gets today's. */
  function Migrate(version: u16, stored: StoredRecord, r: ObjectRecord): Result<ObjectRecord> {
    if version == VERSION then Ok(r)
    else
      var previous :- PreviousLength(version, stored, r);
      if r.info.length != previous then Err(InvalidData) else NormalizeInfoLength(r)
  }

  function RestoreRecord(lib: KeyLibrary, version: u16, stored: StoredRecord): Result<ObjectRecord> {
    var parsed :- FromStored(lib, stored);
    var r :- Migrate(version, stored, parsed);
    var _ :- Validate(r);
    Ok(r)
  }

  function Inserted(m: ObjectMap, r: ObjectRecord): Result<ObjectMap> {
    if r.info.Key() in m then Err(InvalidData) else Ok(m[r.info.Key() := r])
  }

  function RestoreObjects(lib: KeyLibrary, version: u16, stored: seq<StoredRecord>): Result<ObjectMap> {
    if stored == [] then Ok(map[])
    else
      var n := |stored| - 1;
      var m :- RestoreObjects(lib, version, stored[..n]);
      var r :- RestoreRecord(lib, version, stored[n]);
      Inserted(m, r)
  }

  predicate Acceptable(config: DeviceConfig, i: Image) {
    && i.schema == SCHEMA
    && (i.version == 1 || i.version == 2 || i.version == VERSION)
    && i.config.serial == config.serial
    && |i.log.entries| <= config.logCapacity
    && ValidOptions(i.options)
  }

  predicate ValidHistory(generations: map<u16, u64>) {
    forall id | id in generations :: id != 0 && id != 0xffff
  }

  function Restore(f: Foreign, config: DeviceConfig, i: Image): Result<Device> {
    if !Acceptable(config, i) then Err(InvalidData)
    else
      var deviceKey :- FromOption(f.keys.parse(EC_P256, i.deviceKey), InvalidData);
      if !ValidHistory(i.generations) then Err(InvalidData)
      else
        var objects :- RestoreObjects(f.keys, i.version, i.objects);
        Ok(Device(config, Durable(objects, i.generations, i.options, i.log, deviceKey), map[], i.epoch, false))
  }

  // ----- the image as bytes

  /** What the serialization library makes of bytes: an image, and how many bytes it took. */
  datatype Loaded = Loaded(image: Image, position: nat)

  datatype ImageCodec = ImageCodec(write: Image -> bytes, read: bytes -> Option<Loaded>)
  {
    /** The reader reads what the writer wrote of this image, whatever follows it. */
    ghost predicate Keeps(i: Image) {
      forall rest :: read(write(i) + rest) == Some(Loaded(i, |write(i)|))
    }
  }

  function PersistentState(codec: ImageCodec, d: Device): bytes {
    codec.write(Save(d))
  }

  /** Anything after the image refuses it. */
  function FromPersistentState(f: Foreign, codec: ImageCodec, config: DeviceConfig, encoded: bytes): Result<Device> {
    var loaded :- FromOption(codec.read(encoded), InvalidData);
    if loaded.position != |encoded| then Err(InvalidData) else Restore(f, config, loaded.image)
  }

  /** The loop that fills the object map and stops at the first bad or repeated record. */
  method RestoreLoop(f: Foreign, version: u16, stored: seq<StoredRecord>) returns (r: Result<ObjectMap>)
    ensures r == RestoreObjects(f.keys, version, stored)
  {
    var objects: ObjectMap := map[];
    for i := 0 to |stored|
      invariant RestoreObjects(f.keys, version, stored[..i]) == Ok(objects)
    {
      assert stored[..i + 1][..i] == stored[..i];
      var record := RestoreRecord(f.keys, version, stored[i]);
      if record.Err? {
        RestoreFails(f.keys, version, stored, i + 1);
        return Err(record.error);
      }
      var key := record.value.info.Key();
      if key in objects {
        RestoreFails(f.keys, version, stored, i + 1);
        return Err(InvalidData);
      }
      objects := objects[key := record.value];
    }
    assert stored[..|stored|] == stored;
    r := Ok(objects);
  }

  /** A failure in a prefix is the failure of the whole. */
  lemma {:induction false} RestoreFails(lib: KeyLibrary, version: u16, stored: seq<StoredRecord>, n: nat)
    requires n <= |stored| && RestoreObjects(lib, version, stored[..n]).Err?
    ensures RestoreObjects(lib, version, stored) == RestoreObjects(lib, version, stored[..n])
    decreases |stored| - n
  {
    if n == |stored| {
      assert stored[..n] == stored;
    } else {
      assert stored[..n + 1][..n] == stored[..n];
      RestoreFails(lib, version, stored, n + 1);
    }
  }

  // ----- saved images restore

  /** The part of the store below a key position. */
  ghost function Below(objects: ObjectMap, n: nat): ObjectMap {
    map k | k in objects && PositionOf(k) < n :: objects[k]
  }

  lemma BelowNext(objects: ObjectMap, n: nat)
    requires n < KEY_SPACE
    ensures
      var k := KeyAt(n);
      if k.Some? && k.value in objects
      then k.value !in Below(objects, n) && Below(objects, n + 1) == Below(objects, n)[k.value := objects[k.value]]
      else Below(objects, n + 1) == Below(objects, n)
  {
    forall k | k in objects && PositionOf(k) == n
      ensures KeyAt(n) == Some(k)
    {
    }
    var k := KeyAt(n);
    if k.Some? {
      KeyAtPosition(n, k.value);
    }
  }

  /** A stored form that restores to the record it came from. */
  ghost predicate Restores(lib: KeyLibrary, version: u16, stored: StoredRecord, r: ObjectRecord) {
    RestoreRecord(lib, version, stored) == Ok(r)
  }

  lemma RestoreAppend(lib: KeyLibrary, version: u16, stored: seq<StoredRecord>, last: StoredRecord, m: ObjectMap, r: ObjectRecord)
    requires RestoreObjects(lib, version, stored) == Ok(m) && Restores(lib, version, last, r) && r.info.Key() !in m
    ensures RestoreObjects(lib, version, stored + [last]) == Ok(m[r.info.Key() := r])
  {
    assert (stored + [last])[..|stored|] == stored;
  }

  lemma FormsAppend(form: ObjectRecord -> StoredRecord, records: seq<ObjectRecord>, r: ObjectRecord)
    ensures Forms(form, records + [r]) == Forms(form, records) + [form(r)]
    ensures Forms(form, records + []) == Forms(form, records)
  {
    assert records + [] == records;
  }

  ghost predicate AllRestore(lib: KeyLibrary, version: u16, objects: ObjectMap, form: ObjectRecord -> StoredRecord) {
    forall k | k in objects :: objects[k].info.Key() == k && Restores(lib, version, form(objects[k]), objects[k])
  }

  ghost predicate RestoresBelow(lib: KeyLibrary, version: u16, objects: ObjectMap, form: ObjectRecord -> StoredRecord, n: nat)
    requires n <= KEY_SPACE
  {
    RestoreObjects(lib, version, Forms(form, RecordsBelow(objects, n))) == Ok(Below(objects, n))
  }

  lemma RestoreNone(lib: KeyLibrary, version: u16, objects: ObjectMap, form: ObjectRecord -> StoredRecord)
    ensures RestoresBelow(lib, version, objects, form, 0)
  {
    assert Below(objects, 0) == map[];
    assert Forms(form, RecordsBelow(objects, 0)) == [];
  }

  lemma RestoreNext(lib: KeyLibrary, version: u16, objects: ObjectMap, form: ObjectRecord -> StoredRecord, n: nat)
    requires n < KEY_SPACE && AllRestore(lib, version, objects, form) && RestoresBelow(lib, version, objects, form, n)
    ensures RestoresBelow(lib, version, objects, form, n + 1)
  {
    BelowNext(objects, n);
    RecordsNext(objects, n);
    var k := KeyAt(n);
    if k.Some? && k.value in objects {
      var before, r := RecordsBelow(objects, n), objects[k.value];
      FormsAppend(form, before, r);
      RestoreAppend(lib, version, Forms(form, before), form(r), Below(objects, n), r);
    }
  }

  ghost function Reaches(lib: KeyLibrary, version: u16, objects: ObjectMap, form: ObjectRecord -> StoredRecord): nat -> bool {
    (k: nat) => k <= KEY_SPACE && RestoresBelow(lib, version, objects, form, k)
  }

  lemma ReachesNext(lib: KeyLibrary, version: u16, objects: ObjectMap, form: ObjectRecord -> StoredRecord, k: nat)
    requires AllRestore(lib, version, objects, form) && k < KEY_SPACE && Reaches(lib, version, objects, form)(k)
    ensures Reaches(lib, version, objects, form)(k + 1)
  {
    RestoreNext(lib, version, objects, form, k);
  }

  lemma ReachesAll(lib: KeyLibrary, version: u16, objects: ObjectMap, form: ObjectRecord -> StoredRecord)
    requires AllRestore(lib, version, objects, form)
    ensures Reaches(lib, version, objects, form)(KEY_SPACE)
  {
    var holds := Reaches(lib, version, objects, form);
    RestoreNone(lib, version, objects, form);
    forall k: nat | k < KEY_SPACE && holds(k)
      ensures holds(k + 1)
    {
      ReachesNext(lib, version, objects, form, k);
    }
    Climb(holds, KEY_SPACE);
  }

  lemma StoreRoundTrip(lib: KeyLibrary, version: u16, objects: ObjectMap, form: ObjectRecord -> StoredRecord)
    requires AllRestore(lib, version, objects, form)
    ensures RestoresBelow(lib, version, objects, form, KEY_SPACE)
  {
    ReachesAll(lib, version, objects, form);
  }

  lemma AllBelow(objects: ObjectMap)
    ensures Below(objects, KEY_SPACE) == objects
  {
  }

  /** A saved image restores under any configuration with the same serial number and room for
      the log, and under no other; only sessions and the pending flag are lost. */
  lemma SaveRestore(f: Foreign, config: DeviceConfig, d: Device)
    requires DurableInv(f, d.config.logCapacity, d.durable)
    ensures Restore(f, config, Save(d)).Ok?
            <==> config.serial == d.config.serial && |d.durable.log.entries| <= config.logCapacity
    ensures Restore(f, config, Save(d)).Ok? ==>
              Restore(f, config, Save(d)).value == d.(config := config, sessions := map[], dirty := false)
  {
    var objects := d.durable.objects;
    forall k | k in objects
      ensures objects[k].info.Key() == k && Restores(f.keys, VERSION, ToStored(objects[k]), objects[k])
    {
      StoredRoundTrip(f.keys, objects[k]);
    }
    assert AllRestore(f.keys, VERSION, objects, ToStored);
    StoreRoundTrip(f.keys, VERSION, objects, ToStored);
    AllBelow(objects);
  }

  /** The bytes a device saves restore it under the same serial number and with room for the log;
      with another serial number, less room, or a single byte after them they are refused. */
  lemma StateBytesRestore(f: Foreign, codec: ImageCodec, config: DeviceConfig, d: Device, rest: bytes)
    requires codec.Keeps(Save(d)) && DurableInv(f, d.config.logCapacity, d.durable)
    ensures
      FromPersistentState(f, codec, config, PersistentState(codec, d) + rest)
      == if rest == [] && config.serial == d.config.serial && |d.durable.log.entries| <= config.logCapacity
         then Ok(d.(config := config, sessions := map[], dirty := false)) else Err(InvalidData)
  {
    SaveRestore(f, config, d);
    var encoded := PersistentState(codec, d);
    assert codec.read(encoded + rest) == Some(Loaded(Save(d), |encoded|));
  }

  /** The device that a restart brings back. */
  function Restarted(f: Foreign, d: Device): Device {
    var r := Restore(f, d.config, Save(d));
    if r.Ok? then r.value else d
  }

  lemma RestartLosesOnlySessions(f: Foreign, d: Device)
    requires DurableInv(f, d.config.logCapacity, d.durable)
    ensures Restarted(f, d) == d.(sessions := map[], dirty := false)
  {
    SaveRestore(f, d.config, d);
  }

  lemma SettleDependsOnDurable(f: Foreign, x: Device, y: Device, a: Device, b: Device, auth: SessionAuthorization,
                               c: Option<CommandCode>, request: Frame, result: Result<bytes>)
    requires x.durable == y.durable && a.config == b.config && a.durable == b.durable
    ensures Settle(f, x, a, auth, c, request, result).durable == Settle(f, y, b, auth, c, request, result).durable
  {
  }

  /** Answers and durable changes depend on the configuration and durable state alone. */
  lemma AnswersDependOnDurable(f: Foreign, a: Device, b: Device, v: Option<Volatile.Store>, auth: SessionAuthorization,
                               request: Frame, r: Result<Done>)
    requires a.config == b.config && a.durable == b.durable
    ensures
      var x, y := InnerWith(f, a, v, auth, request, r), InnerWith(f, b, v, auth, request, r);
      x.response == y.response && x.objects == y.objects && x.device.durable == y.device.durable
  {
    SettleDependsOnDurable(f, a, b, AfterEffect(f, a, r), AfterEffect(f, b, r), auth,
                           SupportedFromByte(a.config, request.command), request, SizeChecked(r));
  }

  /** A restarted device answers every inner command as the original would and makes the same
      change to durable state. */
  lemma RestartedAnswersAlike(f: Foreign, d: Device, v: Option<Volatile.Store>, auth: SessionAuthorization, request: Frame,
                              env: Env)
    requires DurableInv(f, d.config.logCapacity, d.durable)
    ensures
      var x, y := ExecuteInner(f, d, v, auth, request, env), ExecuteInner(f, Restarted(f, d), v, auth, request, env);
      x.response == y.response && x.objects == y.objects && x.device.durable == y.device.durable
  {
    RestartLosesOnlySessions(f, d);
    AnswersDependOnDurable(f, d, Restarted(f, d), v, auth, request,
                           ExecuteResult(f, d.config, d.durable, v, auth, request, env));
  }

  // ----- older images

  /** The stored form of a record in an older version. */
  function Downgraded(version: u16, r: ObjectRecord): StoredRecord {
    var stored := ToStored(r);
    var n := PreviousLength(version, stored, r);
    if n.Ok? && n.value < 0x1_0000 then stored.(info := stored.info.(length := n.value)) else stored
  }

  /** The older length has a value in a 16-bit field. */
  predicate Expressible(version: u16, r: ObjectRecord) {
    var n := PreviousLength(version, ToStored(r), r);
    n.Ok? && n.value < 0x1_0000
  }

  /** Every sound object has an older length that fits: all lengths but an HMAC key's are bounded
      by the length field itself or by the private-key library. */
  lemma SoundIsExpressible(lib: KeyLibrary, version: u16, r: ObjectRecord)
    requires lib.Lawful() && (version == 1 || version == 2) && Sound(lib, r) && Modest(r)
    ensures Expressible(version, r)
  {
    if r.material.PrivateKey? {
      assert lib.Retained(r.material.algorithm, r.material.encoded);
    }
  }

  lemma DowngradedRestores(lib: KeyLibrary, version: u16, r: ObjectRecord)
    requires (version == 1 || version == 2) && Sound(lib, r) && Expressible(version, r)
    ensures Restores(lib, version, Downgraded(version, r), r)
  {
    var stored := Downgraded(version, r);
    var older := r.(info := r.info.(length := stored.info.length));
    assert Settled(lib, older);
    StoredRoundTrip(lib, older);
    assert ToStored(older) == stored;
    NormalizeRestores(r, stored.info.length);
  }

  function SaveAs(version: u16, d: Device): Image {
    Save(d).(version := version,
             objects := Forms((r: ObjectRecord) => Downgraded(version, r), InOrder(d.durable.objects)))
  }

  predicate ModestStore(objects: ObjectMap) {
    forall k | k in objects :: Modest(objects[k])
  }

  /** Images whose lengths follow the rule of version 1 or 2 restore to the same device. */
  lemma OlderImagesRestore(f: Foreign, version: u16, d: Device)
    requires f.Lawful() && (version == 1 || version == 2)
    requires DurableInv(f, d.config.logCapacity, d.durable) && ModestStore(d.durable.objects)
    ensures Restore(f, d.config, SaveAs(version, d)) == Restore(f, d.config, Save(d))
  {
    var objects := d.durable.objects;
    var form := (r: ObjectRecord) => Downgraded(version, r);
    forall k | k in objects
      ensures objects[k].info.Key() == k && Restores(f.keys, version, form(objects[k]), objects[k])
    {
      SoundIsExpressible(f.keys, version, objects[k]);
      DowngradedRestores(f.keys, version, objects[k]);
    }
    StoreRoundTrip(f.keys, version, objects, form);
    AllBelow(objects);
    SaveRestore(f, d.config, d);
  }

  // ----- any accepted image

  /** Images that are accepted at all: of this schema, of version 1 to 3, for this serial number, with
      room for the log, valid option values, valid identifiers and a key that parses. */
  lemma AcceptedImageIs(f: Foreign, config: DeviceConfig, i: Image)
    requires Restore(f, config, i).Ok?
    ensures i.schema == "virtual-yubihsm-state" && 1 <= i.version <= 3 && i.config.serial == config.serial
    ensures |i.log.entries| <= config.logCapacity
    ensures i.options.forceAudit <= 2 && i.options.fipsMode <= 2
    ensures forall k | k in i.options.commandAudit :: i.options.commandAudit[k] <= 2
    ensures forall k | k in i.options.algorithmToggle :: i.options.algorithmToggle[k] <= 2
    ensures 0 !in i.generations && 0xffff !in i.generations && f.keys.parse(EC_P256, i.deviceKey).Some?
    ensures
      var d := Restore(f, config, i).value;
      && d.config == config && d.sessions == map[] && d.epoch == i.epoch && !d.dirty
      && d.durable.generations == i.generations && d.durable.options == i.options && d.durable.log == i.log
      && Some(d.durable.deviceKey) == f.keys.parse(EC_P256, i.deviceKey)
  {
  }

  /** Facts that the types of the stored form guarantee. */
  predicate TypedImage(i: Image) {
    forall s | s in i.objects :: s.material.StoredOtpAead? ==> |s.material.nonceId| == 4
  }

  lemma RestoredRecordIsSound(lib: KeyLibrary, version: u16, stored: StoredRecord)
    requires lib.Lawful() && RestoreRecord(lib, version, stored).Ok?
    requires stored.material.StoredOtpAead? ==> |stored.material.nonceId| == 4
    ensures Sound(lib, RestoreRecord(lib, version, stored).value) && WellTyped(RestoreRecord(lib, version, stored).value)
  {
    FromStoredSettles(lib, stored);
  }

  lemma {:induction false} RestoredStoreIsSound(lib: KeyLibrary, version: u16, stored: seq<StoredRecord>)
    requires lib.Lawful() && RestoreObjects(lib, version, stored).Ok?
    requires forall s | s in stored :: s.material.StoredOtpAead? ==> |s.material.nonceId| == 4
    ensures SoundStore(lib, RestoreObjects(lib, version, stored).value)
    ensures |RestoreObjects(lib, version, stored).value| == |stored|
  {
    if stored != [] {
      var n := |stored| - 1;
      RestoredStoreIsSound(lib, version, stored[..n]);
      assert stored[n] in stored;
      RestoredRecordIsSound(lib, version, stored[n]);
    }
  }

  /** Whatever image is accepted, the device that comes out satisfies the invariant of runs. */
  lemma RestoredIsSound(f: Foreign, config: DeviceConfig, i: Image)
    requires f.Lawful() && TypedImage(i) && Restore(f, config, i).Ok?
    ensures DurableInv(f, config.logCapacity, Restore(f, config, i).value.durable)
    ensures |Restore(f, config, i).value.durable.objects| == |i.objects|
  {
    RestoredStoreIsSound(f.keys, i.version, i.objects);
  }
}
