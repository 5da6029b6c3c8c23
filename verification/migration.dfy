/** Images of older versions, over every run. */
module Migration {
  import opened Bytes
  import opened Errors
  import opened Options
  import opened Store
  import opened ForeignCode
  import opened Machine
  import opened Persistence
  import opened DeviceRuns
  import opened Epochs

  lemma ChangeKeepsModest(keys: StaticKeys, d: Durable, e: Effect, d': Durable)
    requires Changes(keys, d, e, d') && ModestStore(d.objects)
    ensures ModestStore(d'.objects)
  {
  }

  lemma {:induction false} RunKeepsModest(f: Foreign, d: Device, inputs: seq<Input>)
    requires f.Lawful() && DeviceInv(f, d) && ModestStore(d.durable.objects)
    ensures ModestStore(Run(f, d, inputs).durable.objects)
    decreases |inputs|
  {
    if inputs != [] {
      StepEffect(f, d, inputs[0]);
      ChangeKeepsModest(f.factoryKeys, d.durable, EffectAt(f, d, inputs[0]), Step(f, d, inputs[0]).durable);
      StepKeepsInv(f, d, inputs[0]);
      RunKeepsModest(f, Step(f, d, inputs[0]), inputs[1..]);
    }
  }

  /** Every state reachable from factory default, written with the lengths of version 1 or 2,
      restores to itself, less sessions and the pending flag. */
  lemma ReachableOlderImages(f: Foreign, config: DeviceConfig, serialized: bytes, inputs: seq<Input>, version: u16)
    requires f.Lawful() && FactoryDefault(f, config, serialized).Ok? && (version == 1 || version == 2)
    ensures
      var d := Run(f, FactoryDefault(f, config, serialized).value, inputs);
      Restore(f, config, SaveAs(version, d)) == Ok(d.(sessions := map[], dirty := false))
  {
    var start := FactoryDefault(f, config, serialized).value;
    FactoryIsSound(f, config.logCapacity, start.durable.deviceKey);
    RunKeepsInv(f, start, inputs);
    RunKeepsModest(f, start, inputs);
    OlderImagesRestore(f, version, Run(f, start, inputs));
    SaveRestore(f, config, Run(f, start, inputs));
  }
}
