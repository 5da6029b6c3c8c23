/** What a client puts on the wire is what the device stores and gives back. */
module RoundTrips {
  import opened Bytes
  import opened Errors
  import opened Capabilities
  import opened Objects
  import opened Options
  import opened Requests
  import opened Authorization
  import opened Store
  import opened ForeignCode
  import opened Commands
  import opened Discipline

  // ----- creation requests

  function Middle(shape: Shape, q: ObjectRequest): bytes {
    match shape case PlainShape => [] case DelegatedShape => q.delegated case OtpShape => q.nonceId
  }

  /** The bytes of a creation request, field after field. */
  function EncodeRequest(shape: Shape, q: ObjectRequest): bytes {
    var h := q.header;
    EncodeU16(h.requestedId) + h.labelBytes + EncodeU16(h.domains) + h.capabilities + [h.algorithm]
    + Middle(shape, q) + q.material
  }

  predicate Shaped(shape: Shape, q: ObjectRequest) {
    && |q.header.labelBytes| == LABEL_LENGTH
    && (shape.DelegatedShape? || q.delegated == NO_CAPABILITIES)
    && |q.nonceId| == (if shape.OtpShape? then 4 else 0)
  }

  function MiddleSize(shape: Shape): nat {
    match shape case PlainShape => 0 case DelegatedShape => 8 case OtpShape => 4
  }

  lemma HeaderParts(d: bytes)
    requires |d| >= HEADER_SIZE
    ensures
      var h := HeaderOf(d);
      d == EncodeU16(h.requestedId) + h.labelBytes + EncodeU16(h.domains) + h.capabilities + [h.algorithm] + d[HEADER_SIZE..]
  {
    DecodeU16Inverse(d[..2]);
    DecodeU16Inverse(d[42..44]);
    assert d == d[..2] + d[2..42] + d[42..44] + d[44..52] + [d[52]] + d[HEADER_SIZE..];
  }

  lemma HeaderReads(h: Header, rest: bytes)
    requires |h.labelBytes| == LABEL_LENGTH
    ensures
      var d := EncodeU16(h.requestedId) + h.labelBytes + EncodeU16(h.domains) + h.capabilities + [h.algorithm] + rest;
      HeaderOf(d) == h && d[HEADER_SIZE..] == rest
  {
    var d := EncodeU16(h.requestedId) + h.labelBytes + EncodeU16(h.domains) + h.capabilities + [h.algorithm] + rest;
    assert d[..2] == EncodeU16(h.requestedId) && d[2..42] == h.labelBytes && d[42..44] == EncodeU16(h.domains);
    assert d[44..52] == h.capabilities && d[52] == h.algorithm && d[53..] == rest;
  }

  lemma DecodedParts(shape: Shape, q: ObjectRequest, d: bytes)
    requires DecodeObject(shape, d) == Ok(q)
    ensures Shaped(shape, q) && |d| >= HEADER_SIZE && q.header == HeaderOf(d) && d[HEADER_SIZE..] == Middle(shape, q) + q.material
  {
    var m := HEADER_SIZE + MiddleSize(shape);
    assert d[HEADER_SIZE..] == d[HEADER_SIZE..m] + d[m..];
  }

  lemma EncodedParts(shape: Shape, q: ObjectRequest)
    ensures
      var h := q.header;
      EncodeRequest(shape, q)
      == EncodeU16(h.requestedId) + h.labelBytes + EncodeU16(h.domains) + h.capabilities + [h.algorithm]
         + (Middle(shape, q) + q.material)
  {
  }

  lemma DecodesFrom(shape: Shape, q: ObjectRequest, d: bytes)
    requires Shaped(shape, q) && |d| >= HEADER_SIZE && q.header == HeaderOf(d) && d[HEADER_SIZE..] == Middle(shape, q) + q.material
    ensures DecodeObject(shape, d) == Ok(q)
  {
    var m := MiddleSize(shape);
    var rest := d[HEADER_SIZE..];
    assert |Middle(shape, q)| == m;
    assert rest[..m] == Middle(shape, q) && rest[m..] == q.material;
    assert d[HEADER_SIZE..HEADER_SIZE + m] == rest[..m] && d[HEADER_SIZE + m..] == rest[m..];
  }

  /** Decoding accepts exactly the encodings of well-shaped requests. */
  lemma RequestExactly(shape: Shape, q: ObjectRequest, d: bytes)
    ensures DecodeObject(shape, d) == Ok(q) <==> Shaped(shape, q) && d == EncodeRequest(shape, q)
  {
    EncodedParts(shape, q);
    if DecodeObject(shape, d) == Ok(q) {
      DecodedParts(shape, q, d);
      HeaderParts(d);
    }
    if Shaped(shape, q) && d == EncodeRequest(shape, q) {
      HeaderReads(q.header, Middle(shape, q) + q.material);
      DecodesFrom(shape, q, d);
    }
  }

  // ----- list filters

  lemma FilterStep(f: Filters, tag: byte, v: bytes, rest: bytes)
    requires FilterSize(tag) == Some(|v|) && AddFilter(f, tag, v).Ok?
    ensures DecodeFilters(f, [tag] + v + rest) == DecodeFilters(AddFilter(f, tag, v).value, rest)
  {
    var d := [tag] + v + rest;
    assert d[1..1 + |v|] == v && d[1 + |v|..] == rest;
  }

  function Field(tag: byte, v: Option<bytes>): bytes {
    if v.Some? then [tag] + v.value else []
  }

  function PadLabel(s: bytes): bytes {
    if |s| <= LABEL_LENGTH then s + Zeros(LABEL_LENGTH - |s|) else s
  }

  function IdField(f: Filters): Option<bytes> {
    if f.id.Some? then Some(EncodeU16(f.id.value)) else None
  }

  function TypeField(f: Filters): Option<bytes> {
    if f.objectType.Some? then Some([f.objectType.value.Byte()]) else None
  }

  function DomainField(f: Filters): Option<bytes> {
    if f.domains.Some? then Some(EncodeU16(f.domains.value)) else None
  }

  function CapabilityField(f: Filters): Option<bytes> {
    if f.capabilities.Some? then Some(f.capabilities.value) else None
  }

  function AlgorithmField(f: Filters): Option<bytes> {
    if f.algorithm.Some? then Some([f.algorithm.value]) else None
  }

  function LabelField(f: Filters): Option<bytes> {
    if f.labelBytes.Some? then Some(PadLabel(f.labelBytes.value)) else None
  }

  function LaterFilters(f: Filters): bytes {
    Field(4, CapabilityField(f)) + (Field(5, AlgorithmField(f)) + (Field(6, LabelField(f)) + []))
  }

  /** All filters of a list request, in tag order. */
  function EncodeFilters(f: Filters): bytes {
    Field(1, IdField(f)) + (Field(2, TypeField(f)) + (Field(3, DomainField(f)) + LaterFilters(f)))
  }

  lemma {:induction false} TrimPadded(s: bytes, n: nat)
    requires 0 !in s
    ensures TrimLabel(s + Zeros(n)) == s
  {
    if s == [] {
      assert s + Zeros(n) == Zeros(n);
    } else {
      assert (s + Zeros(n))[1..] == s[1..] + Zeros(n);
      TrimPadded(s[1..], n);
    }
  }

  lemma FieldStep(f: Filters, tag: byte, v: Option<bytes>, rest: bytes)
    requires v.Some? ==> FilterSize(tag) == Some(|v.value|) && AddFilter(f, tag, v.value).Ok?
    ensures DecodeFilters(f, Field(tag, v) + rest)
            == DecodeFilters(if v.Some? then AddFilter(f, tag, v.value).value else f, rest)
  {
    if v.Some? {
      FilterStep(f, tag, v.value, rest);
    } else {
      assert [] + rest == rest;
    }
  }

  predicate CleanLabel(f: Filters) {
    f.labelBytes.Some? ==> |f.labelBytes.value| <= LABEL_LENGTH && 0 !in f.labelBytes.value
  }

  lemma EarlierFilters(f: Filters, rest: bytes)
    ensures DecodeFilters(NO_FILTERS, Field(1, IdField(f)) + (Field(2, TypeField(f)) + (Field(3, DomainField(f)) + rest)))
            == DecodeFilters(f.(capabilities := None, algorithm := None, labelBytes := None), rest)
  {
    var f1 := NO_FILTERS.(id := f.id);
    var f2 := f1.(objectType := f.objectType);
    FieldStep(NO_FILTERS, 1, IdField(f), Field(2, TypeField(f)) + (Field(3, DomainField(f)) + rest));
    FieldStep(f1, 2, TypeField(f), Field(3, DomainField(f)) + rest);
    FieldStep(f2, 3, DomainField(f), rest);
  }

  lemma LabelRead(f: Filters, label_: Option<bytes>)
    requires CleanLabel(f.(labelBytes := label_)) && f.labelBytes.None?
    ensures DecodeFilters(f, Field(6, LabelField(f.(labelBytes := label_))) + []) == Ok(f.(labelBytes := label_))
  {
    if label_.Some? {
      TrimPadded(label_.value, LABEL_LENGTH - |label_.value|);
    }
    FieldStep(f, 6, LabelField(f.(labelBytes := label_)), []);
  }

  lemma CapabilityRead(f: Filters, rest: bytes)
    ensures DecodeFilters(f.(capabilities := None, algorithm := None, labelBytes := None),
                          Field(4, CapabilityField(f)) + (Field(5, AlgorithmField(f)) + rest))
            == DecodeFilters(f.(labelBytes := None), rest)
  {
    var f3 := f.(capabilities := None, algorithm := None, labelBytes := None);
    var f4 := f3.(capabilities := f.capabilities);
    FieldStep(f3, 4, CapabilityField(f), Field(5, AlgorithmField(f)) + rest);
    FieldStep(f4, 5, AlgorithmField(f), rest);
  }

  lemma LaterFiltersRead(f: Filters)
    requires CleanLabel(f)
    ensures DecodeFilters(f.(capabilities := None, algorithm := None, labelBytes := None), LaterFilters(f)) == Ok(f)
  {
    CapabilityRead(f, Field(6, LabelField(f)) + []);
    LabelRead(f.(labelBytes := None), f.labelBytes);
  }

  /** Decoding gives back every filter that was encoded. */
  lemma FiltersRoundTrip(f: Filters)
    requires CleanLabel(f)
    ensures DecodeFilters(NO_FILTERS, EncodeFilters(f)) == Ok(f)
  {
    EarlierFilters(f, LaterFilters(f));
    LaterFiltersRead(f);
  }

  // ----- what is put can be read back

  lemma CheckKeepsBytes(lib: KeyLibrary, r: ObjectRecord)
    requires CheckWrite(lib, r).Ok? && !r.material.Secret?
    ensures CheckWrite(lib, r).value == r
  {
  }

  /** An opaque object, new or replaced, reads back as the bytes that followed the header. */
  lemma OpaqueReadsBack(f: Foreign, config: DeviceConfig, s: Durable, auth: SessionAuthorization, d: bytes, env: Env)
    requires SoundStore(f.keys, s.objects) && HandleWriteOpaque(f, config, s, auth, d, env).Ok?
    ensures
      var done := HandleWriteOpaque(f, config, s, auth, d, env).value;
      HandleOpaqueRead(ApplyDurable(f.factoryKeys, s, done.effect), OpaqueObject, done.data) == Ok(d[HEADER_SIZE..])
  {
    var q := DecodeObject(PlainShape, d).value;
    var h := q.header;
    var k := ObjectKey(OpaqueObject, h.requestedId);
    if h.requestedId != 0 && k in s.objects {
      assert s.objects[k].info.Key() == k;
      CheckKeepsBytes(f.keys, ObjectRecord(s.objects[k].info.(length := |q.material|), OpaqueBytes(q.material)));
    } else {
      var id := ResolveId(s.objects, OpaqueObject, h.requestedId, env.ids).value;
      var info := ObjectInfo(h.capabilities, id, |q.material|, h.domains, OpaqueObject, h.algorithm, 0, 2,
                             TrimLabel(h.labelBytes), NO_CAPABILITIES);
      CheckKeepsBytes(f.keys, ObjectRecord(info, OpaqueBytes(q.material)));
    }
  }

  /** The metadata of a created object, in terms of the request's own bytes. */
  predicate AsRequested(recipe: Recipe, objects: ObjectMap, d: bytes, info: ObjectInfo) {
    && |d| >= HEADER_SIZE
    && info.objectType == recipe.objectType
    && (if DecodeU16(d[..2]) != 0 then EncodeU16(info.id) == d[..2] else IdFree(objects, info.id))
    && info.Key() !in objects
    && info.labelBytes == TrimLabel(d[2..42])
    && EncodeU16(info.domains) == d[42..44]
    && info.capabilities == d[44..52]
    && info.algorithm == d[52]
    && info.origin == (if recipe.generate then 1 else 2)
    && (if recipe.shape.DelegatedShape? then |d| >= HEADER_SIZE + 8 && info.delegated == d[HEADER_SIZE..HEADER_SIZE + 8]
        else info.delegated == NO_CAPABILITIES)
  }

  lemma HeaderAsRequested(recipe: Recipe, objects: ObjectMap, d: bytes, draws: seq<u16>, info: ObjectInfo)
    requires DecodeObject(recipe.shape, d).Ok?
    requires
      var q := DecodeObject(recipe.shape, d).value;
      && ResolveId(objects, recipe.objectType, q.header.requestedId, draws) == Ok(info.id)
      && info.objectType == recipe.objectType && info.labelBytes == TrimLabel(q.header.labelBytes)
      && info.domains == q.header.domains && info.capabilities == q.header.capabilities
      && info.algorithm == q.header.algorithm && info.delegated == q.delegated
      && info.origin == if recipe.generate then 1 else 2
    ensures AsRequested(recipe, objects, d, info)
  {
    var h := DecodeObject(recipe.shape, d).value.header;
    ResolvedIsNew(objects, recipe.objectType, h.requestedId, draws);
    if h.requestedId == 0 {
      FirstAvailableIsFree(objects, draws);
    }
    DecodeU16Inverse(d[..2]);
    DecodeU16Inverse(d[42..44]);
  }

  /** Every key-creating command writes a new object with exactly the requested metadata and
      answers with its identifier. */
  lemma CreatedAsRequested(f: Foreign, config: DeviceConfig, s: Durable, auth: SessionAuthorization, recipe: Recipe,
                           d: bytes, env: Env)
    requires f.Lawful() && RecipeConsistent(recipe) && HandleCreate(f, config, s, auth, recipe, d, env).Ok?
    ensures
      var done := HandleCreate(f, config, s, auth, recipe, d, env).value;
      && done.effect.WriteObject?
      && AsRequested(recipe, s.objects, d, done.effect.record.info)
      && done.data == EncodeU16(done.effect.record.info.id)
  {
    var q := DecodeObject(recipe.shape, d).value;
    var h := q.header;
    var enabled := AlgorithmEnabled(config, s.options, h.algorithm);
    var plan := PlanFor(f, enabled, recipe, q, env.seed).value;
    var id := ResolveId(s.objects, recipe.objectType, h.requestedId, env.ids).value;
    var info := ObjectInfo(h.capabilities, id, plan.length, h.domains, recipe.objectType, h.algorithm, 0,
                           if recipe.generate then 1 else 2, TrimLabel(h.labelBytes), q.delegated);
    PlanSettles(f, enabled, recipe, q, env.seed, info);
    FinishKeeps(f, recipe.imported, ObjectRecord(info, plan.material.value));
    HeaderAsRequested(recipe, s.objects, d, env.ids, info);
  }

  /** A created object is visible to its creator, and its information is what the store holds. */
  lemma CreatorReadsInfo(f: Foreign, config: DeviceConfig, s: Durable, auth: SessionAuthorization, recipe: Recipe, d: bytes, env: Env)
    requires f.Lawful() && RecipeConsistent(recipe) && HandleCreate(f, config, s, auth, recipe, d, env).Ok?
    ensures
      var done := HandleCreate(f, config, s, auth, recipe, d, env).value;
      var s' := ApplyDurable(f.factoryKeys, s, done.effect);
      var info := done.effect.record.info.(sequence := NextGeneration(s.generations, done.effect.record.info.id) % 0x100);
      HandleInfo(config, s', auth, done.data + [recipe.objectType.Byte()])
      == Ok(EncodeInfo(info.(capabilities := RetainFirmwareSupported(config.firmware, info.capabilities),
                             delegated := RetainFirmwareSupported(config.firmware, info.delegated))))
  {
    CreatedAsRequested(f, config, s, auth, recipe, d, env);
    CreateDiscipline(f, config, s, auth, recipe, d, env);
    var done := HandleCreate(f, config, s, auth, recipe, d, env).value;
    var info := done.effect.record.info;
    AttenuatedIsVisible(auth, info);
    var request := done.data + [recipe.objectType.Byte()];
    assert request[..2] == done.data && request[2] == recipe.objectType.Byte();
  }

  lemma AttenuatedIsVisible(auth: SessionAuthorization, info: ObjectInfo)
    requires Attenuated(auth, info) && info.domains != 0
    ensures auth.CanSee(info)
  {
    WithinMeets(info.domains, auth.domains);
  }
}
