/** Setting options by command, and reading them back. */
module OptionCommands {
  import opened Bytes
  import opened Errors
  import opened Capabilities
  import opened Algorithms
  import opened Frames
  import opened Objects
  import opened Protocol
  import opened Options
  import opened Authorization
  import opened Store
  import opened ForeignCode
  import opened Commands
  import Volatile

  // ----- the two commands

  /** The store holds the factory key's identifier and nothing else. */
  predicate FactoryOnly(objects: ObjectMap) {
    objects.Keys == {ObjectKey(AuthenticationKey, 1)}
  }

  lemma FreshExactly(objects: ObjectMap)
    ensures IsFresh(objects) <==> FactoryOnly(objects)
  {
    if IsFresh(objects) {
      assert |objects.Keys - {FACTORY_KEY}| == 0;
    }
    if FactoryOnly(objects) {
      assert |objects.Keys| == 1;
    }
  }

  /** A session with the capability sets an option exactly when the request is one of those accepted,
      and then sets what it says and nothing else. */
  lemma SetOptionCommand(f: Foreign, config: DeviceConfig, s: Durable, v: Option<Volatile.Store>, auth: SessionAuthorization,
                         d: bytes, env: Env)
    requires SET_OPTION in Members(auth.capabilities)
    ensures
      var r := ExecuteResult(f, config, s, v, auth, Frame(0x4f, d), env);
      && (r.Ok? <==> Accepts(config, FactoryOnly(s.objects), s.options, d))
      && (r.Ok? ==> r.value.data == [] && r.value.effect.ReplaceOptions? && SetsExactly(s.options, d, r.value.effect.options))
  {
    FreshExactly(s.objects);
    SetOptionExactly(config, IsFresh(s.objects), s.options, d);
    SetOptionRuns(f, config, s, v, auth, d, env);
  }

  lemma SetOptionRuns(f: Foreign, config: DeviceConfig, s: Durable, v: Option<Volatile.Store>, auth: SessionAuthorization,
                      d: bytes, env: Env)
    requires SET_OPTION in Members(auth.capabilities)
    ensures
      var o := ApplySetOption(config, IsFresh(s.objects), s.options, d);
      ExecuteResult(f, config, s, v, auth, Frame(0x4f, d), env)
      == if o.Ok? then Ok(Done([], ReplaceOptions(o.value))) else Err(o.error)
  {
  }

  lemma GetOptionRuns(f: Foreign, config: DeviceConfig, s: Durable, v: Option<Volatile.Store>, auth: SessionAuthorization,
                      option: byte, env: Env)
    requires GET_OPTION in Members(auth.capabilities)
    ensures ExecuteResult(f, config, s, v, auth, Frame(0x50, [option]), env) == AnswerWith(HandleReadOption(config, s, [option]))
  {
  }

  // ----- lists of pairs

  predicate Pair(output: bytes, i: nat, k: byte, v: byte) {
    2 * i + 1 < |output| && output[2 * i] == k && output[2 * i + 1] == v
  }

  /** The answer is a list of pairs: for every key of interest its value, and nothing untrue. */
  ghost predicate PairsTell(output: bytes, keys: iset<byte>, m: map<byte, byte>, default: byte) {
    && |output| % 2 == 0
    && (forall i | 0 <= i < |output| / 2 :: output[2 * i] in keys && output[2 * i + 1] == Lookup(m, output[2 * i], default))
    && (forall k | k in keys :: exists i: nat :: Pair(output, i, k, Lookup(m, k, default)))
  }

  lemma PairsAppend(output: bytes, keys: iset<byte>, m: map<byte, byte>, default: byte, k: byte)
    requires PairsTell(output, keys, m, default)
    ensures PairsTell(output + [k, Lookup(m, k, default)], keys + iset{k}, m, default)
  {
    var v := Lookup(m, k, default);
    var all := output + [k, v];
    assert Pair(all, |output| / 2, k, v);
    forall key | key in keys
      ensures exists i: nat :: Pair(all, i, key, Lookup(m, key, default))
    {
      var i: nat :| Pair(output, i, key, Lookup(m, key, default));
      assert Pair(all, i, key, Lookup(m, key, default));
    }
    forall i | 0 <= i < |all| / 2
      ensures all[2 * i] in keys + iset{k} && all[2 * i + 1] == Lookup(m, all[2 * i], default)
    {
      if i < |output| / 2 {
        assert all[2 * i] == output[2 * i] && all[2 * i + 1] == output[2 * i + 1];
      } else {
        assert i == |output| / 2;
      }
    }
  }

  lemma PairsPrepend(output: bytes, keys: iset<byte>, m: map<byte, byte>, default: byte, k: byte)
    requires PairsTell(output, keys, m, default)
    ensures PairsTell([k, Lookup(m, k, default)] + output, keys + iset{k}, m, default)
  {
    var v := Lookup(m, k, default);
    var all := [k, v] + output;
    assert Pair(all, 0, k, v);
    forall key | key in keys
      ensures exists i: nat :: Pair(all, i, key, Lookup(m, key, default))
    {
      var i: nat :| Pair(output, i, key, Lookup(m, key, default));
      assert all[2 * (i + 1)] == output[2 * i] && all[2 * (i + 1) + 1] == output[2 * i + 1];
      assert Pair(all, i + 1, key, Lookup(m, key, default));
    }
    forall i | 0 <= i < |all| / 2
      ensures all[2 * i] in keys + iset{k} && all[2 * i + 1] == Lookup(m, all[2 * i], default)
    {
      if i > 0 {
        var j := i - 1;
        assert all[2 * i] == output[2 * j] && all[2 * i + 1] == output[2 * j + 1];
      }
    }
  }

  ghost function CommandsBelow(config: DeviceConfig, n: nat): iset<byte> {
    iset c: byte | c < n && IsCommand(c) && SupportedCommand(config.firmware, c)
  }

  predicate CommandOffered(config: DeviceConfig, b: byte) {
    IsCommand(b) && SupportedCommand(config.firmware, b)
  }

  lemma CommandsNext(config: DeviceConfig, b: byte)
    ensures CommandsBelow(config, b + 1) == CommandsBelow(config, b) + if CommandOffered(config, b) then iset{b} else iset{}
  {
  }

  lemma BytesNext(config: DeviceConfig, o: DeviceOptions, b: byte)
    ensures CommandOptionBytes(config, o, b + 1)
            == if CommandOffered(config, b) then CommandOptionBytes(config, o, b) + [b, Lookup(o.commandAudit, b, OFF)]
               else CommandOptionBytes(config, o, b)
  {
    assert CommandOptionBytes(config, o, b) + [] == CommandOptionBytes(config, o, b);
  }

  lemma {:induction false} CommandPairs(config: DeviceConfig, o: DeviceOptions, n: nat)
    requires n <= 0x100
    ensures PairsTell(CommandOptionBytes(config, o, n), CommandsBelow(config, n), o.commandAudit, OFF)
  {
    if n > 0 {
      var b: byte := n - 1;
      CommandPairs(config, o, b);
      CommandsNext(config, b);
      BytesNext(config, o, b);
      if CommandOffered(config, b) {
        PairsAppend(CommandOptionBytes(config, o, b), CommandsBelow(config, b), o.commandAudit, OFF, b);
      } else {
        assert CommandsBelow(config, n) == CommandsBelow(config, b);
      }
    }
  }

  ghost function SupportedOf(config: DeviceConfig, algorithms: seq<byte>): iset<byte> {
    iset a: byte | a in algorithms && Supported(config.firmware, a)
  }

  lemma {:induction false} AlgorithmPairs(config: DeviceConfig, o: DeviceOptions, algorithms: seq<byte>)
    ensures PairsTell(AlgorithmOptionBytes(config, o, algorithms), SupportedOf(config, algorithms), o.algorithmToggle, ON)
  {
    if algorithms != [] {
      var rest := algorithms[1..];
      AlgorithmPairs(config, o, rest);
      if Supported(config.firmware, algorithms[0]) {
        PairsPrepend(AlgorithmOptionBytes(config, o, rest), SupportedOf(config, rest), o.algorithmToggle, ON, algorithms[0]);
        assert SupportedOf(config, algorithms) == SupportedOf(config, rest) + iset{algorithms[0]};
      } else {
        assert SupportedOf(config, algorithms) == SupportedOf(config, rest);
        assert [] + AlgorithmOptionBytes(config, o, rest) == AlgorithmOptionBytes(config, o, rest);
      }
    }
  }

  // ----- what was set is read back

  /** The answer to GetOption after an accepted SetOption says what the request said. */
  ghost predicate TellsSetting(config: DeviceConfig, d: bytes, answer: bytes)
    requires |d| >= 4
  {
    if d[0] == 1 || d[0] == 5 then answer == [d[3]]
    else
      forall k: byte | LastValue(d[3..], k).Some? :: exists i: nat :: Pair(answer, i, k, LastValue(d[3..], k).value)
  }

  lemma {:induction false} ListedIsTaken(config: DeviceConfig, option: byte, m: map<byte, byte>, values: bytes, k: byte)
    requires option == COMMAND_AUDIT || option == ALGORITHM_TOGGLE
    requires SetPairs(config, option, m, values).Ok? && LastValue(values, k).Some?
    ensures exists v :: ValidPair(config, option, k, v)
    decreases |values|
  {
    if LastValue(values[2..], k).Some? {
      ListedIsTaken(config, option, m[values[0] := values[1]], values[2..], k);
    } else {
      assert ValidPair(config, option, k, values[1]);
    }
  }

  lemma ListTells(config: DeviceConfig, option: byte, m: map<byte, byte>, m': map<byte, byte>, values: bytes,
                  output: bytes, keys: iset<byte>, default: byte)
    requires Relisted(m, m', values) && PairsTell(output, keys, m', default)
    requires forall k: byte :: LastValue(values, k).Some? ==> k in keys
    ensures forall k: byte | LastValue(values, k).Some? :: exists i: nat :: Pair(output, i, k, LastValue(values, k).value)
  {
    forall k: byte | LastValue(values, k).Some?
      ensures exists i: nat :: Pair(output, i, k, LastValue(values, k).value)
    {
      assert k in keys && Lookup(m', k, default) == LastValue(values, k).value;
    }
  }

  lemma SettingTold(config: DeviceConfig, s: Durable, d: bytes, o: DeviceOptions)
    requires ApplySetOption(config, IsFresh(s.objects), s.options, d) == Ok(o)
    ensures |d| >= 4 && HandleReadOption(config, s.(options := o), [d[0]]).Ok?
    ensures TellsSetting(config, d, HandleReadOption(config, s.(options := o), [d[0]]).value)
  {
    SetOptionExactly(config, IsFresh(s.objects), s.options, d);
    var values := d[3..];
    assert d[1..3] == [d[1], d[2]];
    if d[0] == 3 {
      CommandPairs(config, o, 0x100);
      forall k: byte | LastValue(values, k).Some?
        ensures k in CommandsBelow(config, 0x100)
      {
        ListedIsTaken(config, COMMAND_AUDIT, s.options.commandAudit, values, k);
      }
      ListTells(config, 3, s.options.commandAudit, o.commandAudit, values, CommandOptionBytes(config, o, 0x100),
                CommandsBelow(config, 0x100), OFF);
    } else if d[0] == 4 {
      AlgorithmPairs(config, o, config.algorithms);
      forall k: byte | LastValue(values, k).Some?
        ensures k in SupportedOf(config, config.algorithms)
      {
        ListedIsTaken(config, ALGORITHM_TOGGLE, s.options.algorithmToggle, values, k);
      }
      ListTells(config, 4, s.options.algorithmToggle, o.algorithmToggle, values,
                AlgorithmOptionBytes(config, o, config.algorithms), SupportedOf(config, config.algorithms), ON);
    }
  }

  /** After an accepted SetOption, GetOption answers with the value set; for a list, with every key's
      last listed value. */
  lemma SetOptionReadsBack(f: Foreign, config: DeviceConfig, s: Durable, v: Option<Volatile.Store>, auth: SessionAuthorization,
                           d: bytes, env: Env, later: Env)
    requires {SET_OPTION, GET_OPTION} <= Members(auth.capabilities)
    requires Accepts(config, FactoryOnly(s.objects), s.options, d)
    ensures
      var done := ExecuteResult(f, config, s, v, auth, Frame(0x4f, d), env);
      && done.Ok?
      && var s' := ApplyDurable(f.factoryKeys, s, done.value.effect);
         var read := ExecuteResult(f, config, s', v, auth, Frame(0x50, [d[0]]), later);
         read.Ok? && |d| >= 4 && TellsSetting(config, d, read.value.data)
  {
    SetOptionCommand(f, config, s, v, auth, d, env);
    SetOptionRuns(f, config, s, v, auth, d, env);
    var o := ApplySetOption(config, IsFresh(s.objects), s.options, d).value;
    SettingTold(config, s, d, o);
    GetOptionRuns(f, config, s.(options := o), v, auth, d[0], later);
  }
}
