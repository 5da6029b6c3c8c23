/** Generations count writes, and objects are what was written last. */
module Generations {
  import opened Bytes
  import opened Errors
  import opened Objects
  import opened Options
  import opened Store
  import opened ForeignCode
  import opened Machine
  import opened DeviceRuns
  import opened Epochs

  /** The effects of a run, one for each input. */
  function Effects(f: Foreign, d: Device, inputs: seq<Input>): (es: seq<Effect>)
    ensures |es| == |inputs|
    decreases |inputs|
  {
    if inputs == [] then []
    else [EffectAt(f, d, inputs[0])] + Effects(f, Step(f, d, inputs[0]), inputs[1..])
  }

  // ----- what a history of effects says, read from its end

  /** Writes to an identifier, over all object types, since the last reset. The factory key
      counts as one. */
  function Writes(es: seq<Effect>, id: u16): nat {
    if es == [] then (if id == FACTORY_KEY.id then 1 else 0)
    else
      match es[|es| - 1]
      case Reset(_) => if id == FACTORY_KEY.id then 1 else 0
      case WriteObject(r) => Writes(es[..|es| - 1], id) + if r.info.id == id then 1 else 0
      case _ => Writes(es[..|es| - 1], id)
  }

  /** A record as it was written, and the number of that write among those to its identifier. */
  datatype Written = Written(record: ObjectRecord, number: nat)

  function Factory(keys: StaticKeys, k: ObjectKey): Option<Written> {
    if k == FACTORY_KEY then Some(Written(FactoryRecord(keys), 1)) else None
  }

  /** The write that an object stems from, unless it has been deleted since. */
  function LastWrite(keys: StaticKeys, es: seq<Effect>, k: ObjectKey): Option<Written> {
    if es == [] then Factory(keys, k)
    else
      match es[|es| - 1]
      case Reset(_) => Factory(keys, k)
      case WriteObject(r) =>
        if r.info.Key() == k then Some(Written(r, Writes(es, k.id))) else LastWrite(keys, es[..|es| - 1], k)
      case RemoveObject(gone) => if gone == k then None else LastWrite(keys, es[..|es| - 1], k)
      case _ => LastWrite(keys, es[..|es| - 1], k)
  }

  /** The n-th write to an identifier has generation n - 1, in 64 bits. */
  predicate Counted(generations: map<u16, u64>, id: u16, n: nat) {
    if n == 0 then id !in generations else id in generations && generations[id] == (n - 1) % U64_MODULUS
  }

  predicate Holds(objects: ObjectMap, k: ObjectKey, w: Option<Written>) {
    if w.None? then k !in objects
    else
      && k in objects && w.value.number > 0
      && objects[k] == w.value.record.(info := w.value.record.info.(sequence := (w.value.number - 1) % 0x100))
  }

  ghost predicate Agrees(keys: StaticKeys, s: Durable, es: seq<Effect>) {
    && (forall id: u16 :: Counted(s.generations, id, Writes(es, id)))
    && (forall k: ObjectKey :: Holds(s.objects, k, LastWrite(keys, es, k)))
  }

  lemma LowByte(n: nat)
    ensures (n % U64_MODULUS) % 0x100 == n % 0x100
  {
    var q := n / U64_MODULUS;
    assert n == q * U64_MODULUS + n % U64_MODULUS;
    assert n == 0x100 * (q * (U64_MODULUS / 0x100)) + n % U64_MODULUS;
  }

  lemma NextIsCount(generations: map<u16, u64>, id: u16, n: nat)
    requires Counted(generations, id, n)
    ensures NextGeneration(generations, id) == n % U64_MODULUS
  {
  }

  lemma HistoryGrows(es: seq<Effect>, e: Effect)
    ensures (es + [e])[..|es|] == es && (es + [e])[|es|] == e
  {
  }

  lemma WriteAgrees(keys: StaticKeys, s: Durable, es: seq<Effect>, r: ObjectRecord)
    requires Agrees(keys, s, es)
    ensures Agrees(keys, ApplyDurable(keys, s, WriteObject(r)), es + [WriteObject(r)])
  {
    var all := es + [WriteObject(r)];
    var s' := ApplyDurable(keys, s, WriteObject(r));
    var n := Writes(es, r.info.id);
    HistoryGrows(es, WriteObject(r));
    assert Counted(s.generations, r.info.id, n);
    NextIsCount(s.generations, r.info.id, n);
    LowByte(n);
    forall id: u16
      ensures Counted(s'.generations, id, Writes(all, id))
    {
      assert Counted(s.generations, id, Writes(es, id));
    }
    forall k: ObjectKey
      ensures Holds(s'.objects, k, LastWrite(keys, all, k))
    {
      assert Holds(s.objects, k, LastWrite(keys, es, k));
    }
  }

  lemma EffectAgrees(keys: StaticKeys, s: Durable, es: seq<Effect>, e: Effect)
    requires Agrees(keys, s, es)
    ensures Agrees(keys, ApplyDurable(keys, s, e), es + [e])
  {
    if e.WriteObject? {
      WriteAgrees(keys, s, es, e.record);
    } else {
      var s' := ApplyDurable(keys, s, e);
      HistoryGrows(es, e);
      forall id: u16
        ensures Counted(s'.generations, id, Writes(es + [e], id))
      {
        assert Counted(s.generations, id, Writes(es, id));
      }
      forall k: ObjectKey
        ensures Holds(s'.objects, k, LastWrite(keys, es + [e], k))
      {
        assert Holds(s.objects, k, LastWrite(keys, es, k));
      }
    }
  }

  lemma StepAgrees(f: Foreign, d: Device, i: Input, past: seq<Effect>)
    requires f.Lawful() && DeviceInv(f, d) && Agrees(f.factoryKeys, d.durable, past)
    ensures Agrees(f.factoryKeys, Step(f, d, i).durable, past + [EffectAt(f, d, i)])
  {
    StepEffect(f, d, i);
    EffectAgrees(f.factoryKeys, d.durable, past, EffectAt(f, d, i));
  }

  /** Generations and objects follow from the effects of the run alone. */
  lemma {:induction false} RunAgrees(f: Foreign, d: Device, inputs: seq<Input>, past: seq<Effect>)
    requires f.Lawful() && DeviceInv(f, d) && Agrees(f.factoryKeys, d.durable, past)
    ensures Agrees(f.factoryKeys, Run(f, d, inputs).durable, past + Effects(f, d, inputs))
    decreases |inputs|
  {
    if inputs == [] {
      assert past + [] == past;
    } else {
      var e, next := EffectAt(f, d, inputs[0]), Step(f, d, inputs[0]);
      StepAgrees(f, d, inputs[0], past);
      StepKeepsInv(f, d, inputs[0]);
      RunAgrees(f, next, inputs[1..], past + [e]);
      assert past + [e] + Effects(f, next, inputs[1..]) == past + Effects(f, d, inputs);
    }
  }

  lemma FactoryAgrees(keys: StaticKeys, deviceKey: bytes)
    ensures Agrees(keys, FactoryDurable(keys, deviceKey), [])
  {
  }

  /** From factory default, across deletions, resets and restarts: the generation of an
      identifier is one less than the writes to it, in 64 bits, and each object is the last
      one written under its key, its sequence the low byte of that write's generation. */
  lemma GenerationsCountWrites(f: Foreign, config: DeviceConfig, serialized: bytes, inputs: seq<Input>)
    requires f.Lawful() && FactoryDefault(f, config, serialized).Ok?
    ensures
      var d := FactoryDefault(f, config, serialized).value;
      Agrees(f.factoryKeys, Run(f, d, inputs).durable, Effects(f, d, inputs))
  {
    var d := FactoryDefault(f, config, serialized).value;
    FactoryIsSound(f, config.logCapacity, d.durable.deviceKey);
    FactoryAgrees(f.factoryKeys, d.durable.deviceKey);
    RunAgrees(f, d, inputs, []);
    assert [] + Effects(f, d, inputs) == Effects(f, d, inputs);
  }
}
