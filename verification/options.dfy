/** Device configuration and the options with their FIX latch. */
module Options {
  import opened Bytes
  import opened Errors
  import opened Capabilities
  import opened Algorithms
  import opened Protocol
  import Cmd

  const OFF: byte := 0
  const ON: byte := 1
  const FIX: byte := 2

  const FORCE_AUDIT: byte := 0x01
  const COMMAND_AUDIT: byte := 0x03
  const ALGORITHM_TOGGLE: byte := 0x04
  const FIPS_MODE: byte := 0x05

  datatype DeviceConfig = DeviceConfig(
    version: bytes,
    serial: u32,
    logCapacity: byte,
    algorithms: seq<byte>,
    partNumber: bytes,
    firmware: Firmware)

  datatype DeviceOptions = DeviceOptions(
    forceAudit: byte,
    commandAudit: map<byte, byte>,
    algorithmToggle: map<byte, byte>,
    fipsMode: byte)

  const DEFAULT_OPTIONS := DeviceOptions(OFF, map[], map[], OFF)

  predicate ValidValue(v: byte) {
    v == OFF || v == ON || v == FIX
  }

  predicate ValidOptions(o: DeviceOptions) {
    && ValidValue(o.forceAudit)
    && ValidValue(o.fipsMode)
    && (forall k | k in o.commandAudit :: ValidValue(o.commandAudit[k]))
    && (forall k | k in o.algorithmToggle :: ValidValue(o.algorithmToggle[k]))
  }

  function Lookup(m: map<byte, byte>, k: byte, default: byte): byte {
    if k in m then m[k] else default
  }

  predicate ShouldAudit(o: DeviceOptions, c: CommandCode) {
    CanBeAudited(c) && Lookup(o.commandAudit, c, OFF) != OFF
  }

  predicate AlgorithmEnabled(config: DeviceConfig, o: DeviceOptions, a: byte) {
    && Supported(config.firmware, a)
    && a in config.algorithms
    && Lookup(o.algorithmToggle, a, ON) != OFF
    && !(o.fipsMode != OFF && FipsDisallowed(a))
  }

  function SetValue(current: byte, requested: byte): Result<byte> {
    if !ValidValue(requested) then Err(InvalidData)
    else if current == FIX && requested != FIX then Err(InsufficientPermissions)
    else Ok(requested)
  }

  /** Which (key, value) pairs an option accepts. */
  predicate ValidPair(config: DeviceConfig, option: byte, key: byte, value: byte) {
    if option == COMMAND_AUDIT then
      var c := FromByte(key);
      && c.Some? && SupportedCommand(config.firmware, c.value)
      && ValidValue(value)
      && !(c.value == Cmd.SessionMessage && value != OFF)
    else key in config.algorithms && Supported(config.firmware, key) && ValidValue(value)
  }

  /** The pairs are applied in order to a copy. */
  function SetPairs(config: DeviceConfig, option: byte, m: map<byte, byte>, values: bytes): Result<map<byte, byte>>
    decreases |values|
  {
    if |values| < 2 then Ok(m)
    else if !ValidPair(config, option, values[0], values[1]) then Err(InvalidData)
    else if Lookup(m, values[0], OFF) == FIX && values[1] != FIX then Err(InsufficientPermissions)
    else SetPairs(config, option, m[values[0] := values[1]], values[2..])
  }

  datatype SetRequest = SetRequest(option: byte, values: bytes)

  function DecodeSetOption(data: bytes): Result<SetRequest> {
    if |data| < 3 || |data| != 3 + DecodeU16(data[1..3]) then Err(WrongLength)
    else Ok(SetRequest(data[0], data[3..]))
  }

  /** `fresh` says that the store holds the factory key and nothing else. */
  function ApplySetOption(config: DeviceConfig, fresh_: bool, o: DeviceOptions, data: bytes): Result<DeviceOptions> {
    var r :- DecodeSetOption(data);
    if r.option == FORCE_AUDIT then
      if |r.values| != 1 then Err(WrongLength)
      else
        var v :- SetValue(o.forceAudit, r.values[0]);
        Ok(o.(forceAudit := v))
    else if r.option == COMMAND_AUDIT then
      if r.values == [] || |r.values| % 2 != 0 then Err(WrongLength)
      else
        var m :- SetPairs(config, COMMAND_AUDIT, o.commandAudit, r.values);
        Ok(o.(commandAudit := m))
    else if r.option == ALGORITHM_TOGGLE then
      if !fresh_ then Err(InsufficientPermissions)
      else if r.values == [] || |r.values| % 2 != 0 then Err(WrongLength)
      else
        var m :- SetPairs(config, ALGORITHM_TOGGLE, o.algorithmToggle, r.values);
        Ok(o.(algorithmToggle := m))
    else if r.option == FIPS_MODE then
      if !fresh_ then Err(InsufficientPermissions)
      else if |r.values| != 1 then Err(WrongLength)
      else
        var v :- SetValue(o.fipsMode, r.values[0]);
        Ok(o.(fipsMode := v))
    else Err(InvalidData)
  }

  /** The loop over pairs, on a copy that is only kept when every pair was accepted. */
  method SetPairsLoop(config: DeviceConfig, option: byte, m: map<byte, byte>, values: bytes)
    returns (r: Result<map<byte, byte>>)
    requires |values| % 2 == 0
    ensures r == SetPairs(config, option, m, values)
  {
    var updated: map<byte, byte> := m;
    var i := 0;
    while i < |values|
      invariant 0 <= i <= |values| && i % 2 == 0
      invariant SetPairs(config, option, m, values) == SetPairs(config, option, updated, values[i..])
      decreases |values| - i
    {
      ghost var rest := values[i..];
      assert rest[0] == values[i] && rest[1] == values[i + 1] && rest[2..] == values[i + 2..];
      if !ValidPair(config, option, values[i], values[i + 1]) {
        return Err(InvalidData);
      }
      if Lookup(updated, values[i], OFF) == FIX && values[i + 1] != FIX {
        return Err(InsufficientPermissions);
      }
      updated := updated[values[i] := values[i + 1]];
      i := i + 2;
    }
    r := Ok(updated);
  }

  // ----- what an accepted list does

  /** The last value the list gives a key, if any. */
  function LastValue(values: bytes, key: byte): Option<byte>
    decreases |values|
  {
    if |values| < 2 then None
    else
      var later := LastValue(values[2..], key);
      if later.Some? then later else if values[0] == key then Some(values[1]) else None
  }

  /** An accepted list is applied whole: each key ends with its last listed value or keeps its own. */
  lemma {:induction false} PairsApplyWhole(
    config: DeviceConfig, option: byte, m: map<byte, byte>, values: bytes, key: byte, default: byte)
    requires SetPairs(config, option, m, values).Ok?
    ensures Lookup(SetPairs(config, option, m, values).value, key, default)
            == var v := LastValue(values, key); if v.Some? then v.value else Lookup(m, key, default)
    decreases |values|
  {
    if |values| >= 2 {
      PairsApplyWhole(config, option, m[values[0] := values[1]], values[2..], key, default);
    }
  }

  /** A key at FIX stays at FIX through any accepted list. */
  lemma {:induction false} PairsKeepFix(config: DeviceConfig, option: byte, m: map<byte, byte>, values: bytes, key: byte)
    requires SetPairs(config, option, m, values).Ok? && Lookup(m, key, OFF) == FIX
    ensures Lookup(SetPairs(config, option, m, values).value, key, OFF) == FIX
    decreases |values|
  {
    if |values| >= 2 {
      PairsKeepFix(config, option, m[values[0] := values[1]], values[2..], key);
    }
  }

  lemma {:induction false} PairsStayValid(config: DeviceConfig, option: byte, m: map<byte, byte>, values: bytes)
    requires SetPairs(config, option, m, values).Ok?
    requires forall k | k in m :: ValidValue(m[k])
    ensures forall k | k in SetPairs(config, option, m, values).value ::
              ValidValue(SetPairs(config, option, m, values).value[k])
    decreases |values|
  {
    if |values| >= 2 {
      PairsStayValid(config, option, m[values[0] := values[1]], values[2..]);
    }
  }

  /** No option that is at FIX ever leaves it. */
  ghost predicate Latched(before: DeviceOptions, after: DeviceOptions) {
    && (before.forceAudit == FIX ==> after.forceAudit == FIX)
    && (before.fipsMode == FIX ==> after.fipsMode == FIX)
    && (forall k :: Lookup(before.commandAudit, k, OFF) == FIX ==> Lookup(after.commandAudit, k, OFF) == FIX)
    && (forall k :: Lookup(before.algorithmToggle, k, OFF) == FIX ==> Lookup(after.algorithmToggle, k, OFF) == FIX)
  }

  lemma SetOptionLatches(config: DeviceConfig, fresh_: bool, o: DeviceOptions, data: bytes)
    requires ApplySetOption(config, fresh_, o, data).Ok?
    ensures Latched(o, ApplySetOption(config, fresh_, o, data).value)
    ensures ValidOptions(o) ==> ValidOptions(ApplySetOption(config, fresh_, o, data).value)
  {
    var r := DecodeSetOption(data).value;
    if r.option == COMMAND_AUDIT {
      forall k | Lookup(o.commandAudit, k, OFF) == FIX {
        PairsKeepFix(config, COMMAND_AUDIT, o.commandAudit, r.values, k);
      }
      if ValidOptions(o) {
        PairsStayValid(config, COMMAND_AUDIT, o.commandAudit, r.values);
      }
    } else if r.option == ALGORITHM_TOGGLE {
      forall k | Lookup(o.algorithmToggle, k, OFF) == FIX {
        PairsKeepFix(config, ALGORITHM_TOGGLE, o.algorithmToggle, r.values, k);
      }
      if ValidOptions(o) {
        PairsStayValid(config, ALGORITHM_TOGGLE, o.algorithmToggle, r.values);
      }
    }
  }

  // ----- exactly what a request sets

  /** Which (key, value) pairs an option takes, said of its bytes. */
  predicate TakesPair(config: DeviceConfig, option: byte, key: byte, value: byte) {
    && value <= 2
    && (if option == 3 then IsCommand(key) && SupportedCommand(config.firmware, key) && (key == 0x05 ==> value == 0)
        else key in config.algorithms && Supported(config.firmware, key))
  }

  /** A list of pairs moves no key away from FIX, wherever that FIX comes from. */
  predicate PairsTaken(config: DeviceConfig, option: byte, m: map<byte, byte>, values: bytes) {
    forall i | 0 <= i < |values| / 2 ::
      && TakesPair(config, option, values[2 * i], values[2 * i + 1])
      && (Lookup(m, values[2 * i], 0) == 2 ==> values[2 * i + 1] == 2)
      && (forall j | 0 <= j < i :: values[2 * j] == values[2 * i] && values[2 * j + 1] == 2 ==> values[2 * i + 1] == 2)
  }

  lemma FirstPair(config: DeviceConfig, option: byte, m: map<byte, byte>, values: bytes)
    requires option == COMMAND_AUDIT || option == ALGORITHM_TOGGLE
    requires |values| >= 2
    ensures PairsTaken(config, option, m, values)
            <==> && ValidPair(config, option, values[0], values[1])
                 && !(Lookup(m, values[0], OFF) == FIX && values[1] != FIX)
                 && PairsTaken(config, option, m[values[0] := values[1]], values[2..])
  {
    var rest, m' := values[2..], m[values[0] := values[1]];
    if PairsTaken(config, option, m, values) {
      assert TakesPair(config, option, values[2 * 0], values[2 * 0 + 1]);
      forall i | 0 <= i < |rest| / 2
        ensures TakesPair(config, option, rest[2 * i], rest[2 * i + 1])
        ensures Lookup(m', rest[2 * i], 0) == 2 ==> rest[2 * i + 1] == 2
        ensures forall j | 0 <= j < i :: rest[2 * j] == rest[2 * i] && rest[2 * j + 1] == 2 ==> rest[2 * i + 1] == 2
      {
        PairShift(values, i);
        assert values[2 * 0] == values[0] && values[2 * 0 + 1] == values[1];
        forall j | 0 <= j < i && rest[2 * j] == rest[2 * i] && rest[2 * j + 1] == 2
          ensures rest[2 * i + 1] == 2
        {
          PairShift(values, j);
        }
      }
    }
    if ValidPair(config, option, values[0], values[1]) && !(Lookup(m, values[0], OFF) == FIX && values[1] != FIX)
       && PairsTaken(config, option, m', rest)
    {
      forall i | 0 <= i < |values| / 2
        ensures TakesPair(config, option, values[2 * i], values[2 * i + 1])
        ensures Lookup(m, values[2 * i], 0) == 2 ==> values[2 * i + 1] == 2
        ensures forall j | 0 <= j < i :: values[2 * j] == values[2 * i] && values[2 * j + 1] == 2 ==> values[2 * i + 1] == 2
      {
        if i > 0 {
          PairShift(values, i - 1);
          assert TakesPair(config, option, rest[2 * (i - 1)], rest[2 * (i - 1) + 1]);
          forall j | 0 <= j < i && values[2 * j] == values[2 * i] && values[2 * j + 1] == 2
            ensures values[2 * i + 1] == 2
          {
            if j > 0 {
              PairShift(values, j - 1);
            }
          }
        }
      }
    }
  }

  lemma PairShift(values: bytes, i: nat)
    requires |values| >= 2 && i < |values[2..]| / 2
    ensures i + 1 < |values| / 2
    ensures values[2..][2 * i] == values[2 * (i + 1)] && values[2..][2 * i + 1] == values[2 * (i + 1) + 1]
  {
  }

  /** Exactly when a list is accepted. */
  lemma {:induction false} PairsAcceptedExactly(config: DeviceConfig, option: byte, m: map<byte, byte>, values: bytes)
    requires option == COMMAND_AUDIT || option == ALGORITHM_TOGGLE
    ensures SetPairs(config, option, m, values).Ok? <==> PairsTaken(config, option, m, values)
    decreases |values|
  {
    if |values| >= 2 {
      FirstPair(config, option, m, values);
      PairsAcceptedExactly(config, option, m[values[0] := values[1]], values[2..]);
    }
  }

  /** The number that two bytes spell. */
  function Spelled(d: bytes, i: nat): nat
    requires i + 2 <= |d|
  {
    (d[i] as int) * 0x100 + d[i + 1]
  }

  /** The requests that are accepted: force-audit (1) and FIPS mode (5) take one value and do not
      leave FIX; command audit (3) and algorithm toggles (4) take a list; FIPS mode and toggles
      belong to a fresh device. */
  predicate Accepts(config: DeviceConfig, fresh_: bool, o: DeviceOptions, d: bytes) {
    && |d| >= 3 && |d| == 3 + Spelled(d, 1)
    && (if d[0] == 1 then |d| == 4 && d[3] <= 2 && (o.forceAudit == 2 ==> d[3] == 2)
        else if d[0] == 5 then fresh_ && |d| == 4 && d[3] <= 2 && (o.fipsMode == 2 ==> d[3] == 2)
        else if d[0] == 3 then |d| > 3 && |d| % 2 == 1 && PairsTaken(config, 3, o.commandAudit, d[3..])
        else if d[0] == 4 then fresh_ && |d| > 3 && |d| % 2 == 1 && PairsTaken(config, 4, o.algorithmToggle, d[3..])
        else false)
  }

  /** A map after a list: each listed key has its last value, every other key what it had. */
  ghost predicate Relisted(before: map<byte, byte>, after: map<byte, byte>, values: bytes) {
    forall k: byte ::
      var last := LastValue(values, k);
      if last.Some? then k in after && after[k] == last.value
      else (k in after <==> k in before) && (k in before ==> k in after && after[k] == before[k])
  }

  lemma {:induction false} PairsRelist(config: DeviceConfig, option: byte, m: map<byte, byte>, values: bytes)
    requires SetPairs(config, option, m, values).Ok?
    ensures Relisted(m, SetPairs(config, option, m, values).value, values)
    decreases |values|
  {
    if |values| >= 2 {
      PairsRelist(config, option, m[values[0] := values[1]], values[2..]);
    }
  }

  /** What an accepted request changes, said of its bytes: one option, and nothing else. */
  ghost predicate SetsExactly(o: DeviceOptions, d: bytes, o': DeviceOptions)
    requires |d| >= 4
  {
    if d[0] == 1 then o' == o.(forceAudit := d[3])
    else if d[0] == 5 then o' == o.(fipsMode := d[3])
    else if d[0] == 3 then o' == o.(commandAudit := o'.commandAudit) && Relisted(o.commandAudit, o'.commandAudit, d[3..])
    else o' == o.(algorithmToggle := o'.algorithmToggle) && Relisted(o.algorithmToggle, o'.algorithmToggle, d[3..])
  }

  /** SetOption accepts exactly those requests and sets exactly what they say. */
  lemma SetOptionExactly(config: DeviceConfig, fresh_: bool, o: DeviceOptions, d: bytes)
    ensures ApplySetOption(config, fresh_, o, d).Ok? <==> Accepts(config, fresh_, o, d)
    ensures Accepts(config, fresh_, o, d) ==>
              SetsExactly(o, d, ApplySetOption(config, fresh_, o, d).value)
  {
    if |d| >= 3 && |d| == 3 + Spelled(d, 1) {
      var values := d[3..];
      assert d[1..3] == [d[1], d[2]];
      if d[0] == 3 && values != [] && |values| % 2 == 0 {
        PairsAcceptedExactly(config, COMMAND_AUDIT, o.commandAudit, values);
        if SetPairs(config, COMMAND_AUDIT, o.commandAudit, values).Ok? {
          PairsRelist(config, COMMAND_AUDIT, o.commandAudit, values);
        }
      } else if d[0] == 4 && values != [] && |values| % 2 == 0 {
        PairsAcceptedExactly(config, ALGORITHM_TOGGLE, o.algorithmToggle, values);
        if SetPairs(config, ALGORITHM_TOGGLE, o.algorithmToggle, values).Ok? {
          PairsRelist(config, ALGORITHM_TOGGLE, o.algorithmToggle, values);
        }
      }
    }
  }
}
