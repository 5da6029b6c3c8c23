/** The audit log, force-audit and the option latch over runs of the device. */
module Accounting {
  import opened Bytes
  import opened Errors
  import opened Capabilities
  import opened Frames
  import opened Envelope
  import opened Objects
  import opened Protocol
  import Cmd
  import opened Options
  import opened Authorization
  import opened Store
  import opened ForeignCode
  import opened Commands
  import opened Discipline
  import opened Machine
  import opened Persistence
  import opened Trace
  import opened DeviceRuns
  import opened Epochs
  import Audit
  import Volatile

  // ----- each happening is a short list of log operations

  function RecordOps(o: DeviceOptions, auth: SessionAuthorization, c: CommandCode, request: Frame, code: byte): seq<Audit.Op> {
    if ShouldAudit(o, c) then [Audit.Record(FactOf(auth, c, request, code))] else []
  }

  function MissOps(d: Device): seq<Audit.Op> {
    if ForcedAndFull(d) then [Audit.MissAuthentication] else []
  }

  function EffectOps(e: Effect): seq<Audit.Op> {
    match e
    case TrimLog(i) => [Audit.SetLogIndex(i)]
    case Reset(_) => [Audit.Wipe]
    case _ => []
  }

  function LogOps(d: Device, h: Happening): seq<Audit.Op>
    requires h.Authenticates? || h.Runs? ==> h.sid in d.sessions
  {
    match h
    case Creates(auth, request, made) =>
      (if made.Ok? && made.value.entry.authenticated then MissOps(d) else [])
      + RecordOps(d.durable.options, auth, Cmd.CreateSession, request, ResultCode(made))
    case Authenticates(sid, request, admitted) =>
      (if admitted.Ok? then MissOps(d) else [])
      + RecordOps(d.durable.options, d.sessions[sid].authorization, Cmd.AuthenticateSession, request, ResultCode(admitted))
    case Runs(sid, _, inner, r, _) =>
      var auth := d.sessions[sid].authorization;
      var c := SupportedFromByte(d.config, inner.command);
      if !Handled(d, auth, inner) then []
      else
        EffectOps(EffectOf(r))
        + (if c.Some? then RecordOps(d.durable.options, auth, c.value, inner, ResultCode(SizeChecked(r))) else [])
    case _ => []
  }

  lemma {:induction false} ApplyAllAppend(hash: Audit.Hash, capacity: byte, log: Audit.Log, a: seq<Audit.Op>, b: seq<Audit.Op>)
    ensures Audit.ApplyAll(hash, capacity, log, a + b)
            == Audit.ApplyAll(hash, capacity, Audit.ApplyAll(hash, capacity, log, a), b)
    decreases |a|
  {
    if a == [] {
      assert a + b == b;
    } else {
      assert (a + b)[1..] == a[1..] + b;
      ApplyAllAppend(hash, capacity, Audit.Apply(hash, capacity, log, a[0]), a[1..], b);
    }
  }

  lemma ApplyOne(hash: Audit.Hash, capacity: byte, log: Audit.Log, op: Audit.Op)
    ensures Audit.ApplyAll(hash, capacity, log, [op]) == Audit.Apply(hash, capacity, log, op)
  {
    assert [op][1..] == [];
  }

  lemma RecordOpsApply(f: Foreign, d: Device, o: DeviceOptions, auth: SessionAuthorization, c: CommandCode, request: Frame, code: byte)
    ensures (if ShouldAudit(o, c) then AppendAudit(f, d, FactOf(auth, c, request, code)) else d).durable.log
            == Audit.ApplyAll(f.hash, d.config.logCapacity, d.durable.log, RecordOps(o, auth, c, request, code))
  {
    if ShouldAudit(o, c) {
      ApplyOne(f.hash, d.config.logCapacity, d.durable.log, Audit.Record(FactOf(auth, c, request, code)));
    }
  }

  lemma MissOpsApply(f: Foreign, d: Device)
    ensures RecordUnlogged(d).durable.log == Audit.ApplyAll(f.hash, d.config.logCapacity, d.durable.log, MissOps(d))
  {
    if ForcedAndFull(d) {
      ApplyOne(f.hash, d.config.logCapacity, d.durable.log, Audit.MissAuthentication);
    }
  }

  lemma EffectOpsApply(f: Foreign, d: Device, e: Effect)
    ensures ApplyDurable(f.factoryKeys, d.durable, e).log
            == Audit.ApplyAll(f.hash, d.config.logCapacity, d.durable.log, EffectOps(e))
  {
    match e
    case TrimLog(i) => ApplyOne(f.hash, d.config.logCapacity, d.durable.log, Audit.SetLogIndex(i));
    case Reset(_) => ApplyOne(f.hash, d.config.logCapacity, d.durable.log, Audit.Wipe);
    case _ =>
  }

  lemma CreatesLog(f: Foreign, d: Device, h: Happening)
    requires h.Creates?
    ensures Replay(f, d, h).durable.log == Audit.ApplyAll(f.hash, d.config.logCapacity, d.durable.log, LogOps(d, h))
  {
    var opened_ := AfterOpen(d, h.made);
    var first := if h.made.Ok? && h.made.value.entry.authenticated then MissOps(d) else [];
    if h.made.Ok? {
      MissOpsApply(f, With(d, h.made.value.sid, h.made.value.entry));
      RecordUnloggedOnlyLogs(With(d, h.made.value.sid, h.made.value.entry));
    }
    assert opened_.durable.log == Audit.ApplyAll(f.hash, d.config.logCapacity, d.durable.log, first);
    RecordOpsApply(f, opened_, d.durable.options, h.auth, Cmd.CreateSession, h.request, ResultCode(h.made));
    ApplyAllAppend(f.hash, d.config.logCapacity, d.durable.log, first,
                   RecordOps(d.durable.options, h.auth, Cmd.CreateSession, h.request, ResultCode(h.made)));
  }

  lemma AuthenticatesLog(f: Foreign, d: Device, h: Happening)
    requires h.Authenticates? && h.sid in d.sessions
    ensures Replay(f, d, h).durable.log == Audit.ApplyAll(f.hash, d.config.logCapacity, d.durable.log, LogOps(d, h))
  {
    var after := AfterAdmit(d, h.sid, h.admitted);
    var first := if h.admitted.Ok? then MissOps(d) else [];
    var auth := d.sessions[h.sid].authorization;
    if h.admitted.Ok? {
      MissOpsApply(f, With(Without(d, h.sid), h.sid, h.admitted.value));
      RecordUnloggedOnlyLogs(With(Without(d, h.sid), h.sid, h.admitted.value));
    }
    assert after.durable.log == Audit.ApplyAll(f.hash, d.config.logCapacity, d.durable.log, first);
    RecordOpsApply(f, after, d.durable.options, auth, Cmd.AuthenticateSession, h.request, ResultCode(h.admitted));
    ApplyAllAppend(f.hash, d.config.logCapacity, d.durable.log, first,
                   RecordOps(d.durable.options, auth, Cmd.AuthenticateSession, h.request, ResultCode(h.admitted)));
  }

  lemma RunsLog(f: Foreign, d: Device, h: Happening)
    requires h.Runs? && h.sid in d.sessions
    ensures Ran(f, d, h).durable.log == Audit.ApplyAll(f.hash, d.config.logCapacity, d.durable.log, LogOps(d, h))
  {
    var entry := d.sessions[h.sid];
    var without := Without(d, h.sid);
    if Handled(without, entry.authorization, h.inner) {
      var after := AfterEffect(f, without, h.r);
      var c := SupportedFromByte(d.config, h.inner.command);
      EffectOpsApply(f, without, EffectOf(h.r));
      if c.Some? {
        var code := ResultCode(SizeChecked(h.r));
        RecordOpsApply(f, after, d.durable.options, entry.authorization, c.value, h.inner, code);
        ApplyAllAppend(f.hash, d.config.logCapacity, d.durable.log, EffectOps(EffectOf(h.r)),
                       RecordOps(d.durable.options, entry.authorization, c.value, h.inner, code));
      } else {
        assert EffectOps(EffectOf(h.r)) + [] == EffectOps(EffectOf(h.r));
      }
    } else {
      RefusedEarly(f, without, entry, h.inner, h.r);
    }
  }

  lemma ReplayLog(f: Foreign, d: Device, h: Happening, env: Env)
    requires Plausible(f, d, h, env)
    ensures Replay(f, d, h).durable.log == Audit.ApplyAll(f.hash, d.config.logCapacity, d.durable.log, LogOps(d, h))
  {
    match h
    case Creates(_, _, _) => CreatesLog(f, d, h);
    case Authenticates(_, _, _) => AuthenticatesLog(f, d, h);
    case Runs(_, _, _, _, _) => RunsLog(f, d, h);
    case _ =>
  }

  lemma LogOpsShape(d: Device, h: Happening)
    requires h.Authenticates? || h.Runs? ==> h.sid in d.sessions
    ensures Audit.RequestOps(LogOps(d, h), Applied(d, h).Reset?)
  {
  }

  lemma EncodedLog(f: Foreign, d: Device, encoded: bytes, env: Env) returns (ops: seq<Audit.Op>)
    requires f.Lawful() && DeviceInv(f, d)
    ensures HandleEncoded(f, d, encoded, env).0.durable.log
            == Audit.ApplyAll(f.hash, d.config.logCapacity, d.durable.log, ops)
    ensures Audit.RequestOps(ops, RequestEffect(f, d, encoded, env).Reset?)
  {
    var start, h := EncodedIsHappening(f, d, encoded, env);
    ReplayLog(f, start, h, env);
    LogOpsShape(start, h);
    ops := LogOps(start, h);
  }

  lemma StepLog(f: Foreign, d: Device, i: Input) returns (ops: seq<Audit.Op>)
    requires f.Lawful() && DeviceInv(f, d)
    ensures Step(f, d, i).durable.log == Audit.ApplyAll(f.hash, d.config.logCapacity, d.durable.log, ops)
    ensures Audit.RequestOps(ops, EffectAt(f, d, i).Reset?)
  {
    ops := [];
    if i.Request? {
      ops := EncodedLog(f, d, i.encoded, i.env);
    } else if i.Restart? {
      RestartLosesOnlySessions(f, d);
    }
  }

  /** Everything appended along a run since the last reset, read off the logs between inputs. */
  function Appended(f: Foreign, d: Device, inputs: seq<Input>, history: seq<Audit.Entry>): seq<Audit.Entry>
    decreases |inputs|
  {
    if inputs == [] then history
    else
      var d' := Step(f, d, inputs[0]);
      Appended(f, d', inputs[1..],
               Audit.HistoryAfter(history, EffectAt(f, d, inputs[0]).Reset?, d.durable.log, d'.durable.log))
  }

  ghost predicate Chronicled(f: Foreign, d: Device, history: seq<Audit.Entry>) {
    Audit.Consistent(f.hash, d.config.logCapacity, Audit.Chronicle(d.durable.log, history))
  }

  lemma StepKeepsChronicle(f: Foreign, d: Device, i: Input, history: seq<Audit.Entry>)
    requires f.Lawful() && DeviceInv(f, d) && Chronicled(f, d, history)
    ensures
      var d' := Step(f, d, i);
      Chronicled(f, d', Audit.HistoryAfter(history, EffectAt(f, d, i).Reset?, d.durable.log, d'.durable.log))
  {
    var ops := StepLog(f, d, i);
    StepKeepsInv(f, d, i);
    var c := Audit.Chronicle(d.durable.log, history);
    Audit.RunConsistent(f.hash, d.config.logCapacity, c, ops);
    Audit.RequestHistory(f.hash, d.config.logCapacity, c, ops, EffectAt(f, d, i).Reset?);
  }

  lemma {:induction false} RunKeepsChronicle(f: Foreign, d: Device, inputs: seq<Input>, history: seq<Audit.Entry>)
    requires f.Lawful() && DeviceInv(f, d) && Chronicled(f, d, history)
    ensures Chronicled(f, Run(f, d, inputs), Appended(f, d, inputs, history))
    decreases |inputs|
  {
    if inputs != [] {
      var d' := Step(f, d, inputs[0]);
      StepKeepsInv(f, d, inputs[0]);
      StepKeepsChronicle(f, d, inputs[0], history);
      RunKeepsChronicle(f, d', inputs[1..],
                        Audit.HistoryAfter(history, EffectAt(f, d, inputs[0]).Reset?, d.durable.log, d'.durable.log));
    }
  }

  /** The log of every device run from the factory state is a chained subsequence of the
      entries appended since the last reset, and a suffix of them before the numbers wrap. */
  lemma AuditChainOverRuns(f: Foreign, config: DeviceConfig, serialized: bytes, inputs: seq<Input>)
    requires f.Lawful() && FactoryDefault(f, config, serialized).Ok?
    ensures
      var d := FactoryDefault(f, config, serialized).value;
      Chronicled(f, Run(f, d, inputs), Appended(f, d, inputs, []))
  {
    var d := FactoryDefault(f, config, serialized).value;
    FactoryIsSound(f, config.logCapacity, d.durable.deviceKey);
    Audit.EmptyConsistent(f.hash, config.logCapacity);
    RunKeepsChronicle(f, d, inputs, []);
  }

  // ----- the log can always be read

  lemma {:induction false} LogBytesLength(entries: seq<Audit.Entry>)
    ensures |LogBytes(entries)| == Audit.ENTRY_LENGTH * |entries|
  {
    if entries != [] {
      LogBytesLength(entries[..|entries| - 1]);
    }
  }

  /** The entries can be told from their bytes. */
  lemma {:induction false} LogReadable(a: seq<Audit.Entry>, b: seq<Audit.Entry>)
    requires LogBytes(a) == LogBytes(b)
    ensures a == b
    decreases |a|
  {
    LogBytesLength(a);
    LogBytesLength(b);
    if a != [] {
      var m, n := |a| - 1, |b| - 1;
      var x, y := LogBytes(a[..m]), LogBytes(b[..n]);
      LogBytesLength(a[..m]);
      LogBytesLength(b[..n]);
      assert LogBytes(a)[..|x|] == x && LogBytes(b)[..|y|] == y;
      assert LogBytes(a)[|x|..] == Audit.EncodeEntry(a[m]) && LogBytes(b)[|y|..] == Audit.EncodeEntry(b[n]);
      LogReadable(a[..m], b[..n]);
      Audit.EntryReadable(a[m], b[n]);
      assert a == a[..m] + [a[m]] && b == b[..n] + [b[n]];
    }
  }

  const READ_LOG := Frame(Cmd.GetLogEntries, [])

  /** The answer to GetLogEntries: counters, the number of entries, and every entry. */
  function LogAnswer(log: Audit.Log): bytes {
    var n := |log.entries|;
    EncodeU16(log.unloggedBoot) + EncodeU16(log.unloggedAuthentication) + [if n < 0x100 then n else 0xff] + LogBytes(log.entries)
  }

  lemma ReadLogResult(f: Foreign, config: DeviceConfig, s: Durable, v: Option<Volatile.Store>, auth: SessionAuthorization, env: Env)
    requires Contains(auth.capabilities, GET_LOG_ENTRIES)
    ensures ExecuteResult(f, config, s, v, auth, READ_LOG, env) == Answer(LogAnswer(s.log))
  {
  }

  /** Within a capacity of 255 the answer has 5 + 32 n bytes, fits the envelope, and tells all entries. */
  lemma LogAnswerFits(log: Audit.Log, other: Audit.Log)
    requires |log.entries| <= 255
    ensures |LogAnswer(log)| == 5 + 32 * |log.entries| && SecureResponseDataFits(|LogAnswer(log)|)
    ensures LogAnswer(log)[4] == |log.entries|
    ensures LogAnswer(log) == LogAnswer(other) ==> log.entries == other.entries
  {
    LogBytesLength(log.entries);
    FitsExactly(|LogAnswer(log)|);
    if LogAnswer(log) == LogAnswer(other) {
      assert LogAnswer(log)[5..] == LogBytes(log.entries) && LogAnswer(other)[5..] == LogBytes(other.entries);
      LogReadable(log.entries, other.entries);
    }
  }

  lemma {:induction false} LogBytesAt(entries: seq<Audit.Entry>, i: nat)
    requires i < |entries|
    ensures |LogBytes(entries)| == 32 * |entries| && LogBytes(entries)[32 * i..32 * i + 32] == Audit.EncodeEntry(entries[i])
    decreases |entries|
  {
    var m := |entries| - 1;
    var init := LogBytes(entries[..m]);
    LogBytesLength(entries[..m]);
    LogBytesLength(entries);
    if i < m {
      LogBytesAt(entries[..m], i);
      assert LogBytes(entries)[32 * i..32 * i + 32] == init[32 * i..32 * i + 32];
    } else {
      assert LogBytes(entries)[|init|..] == Audit.EncodeEntry(entries[m]);
    }
  }

  /** The log's answer begins with the unlogged boots, the unlogged authentications and the number of
      entries; entry `i` stands at 5 + 32 i. */
  lemma LogAnswerLayout(log: Audit.Log, i: nat)
    requires i < |log.entries| <= 255
    ensures
      var a := LogAnswer(log);
      && |a| == 5 + 32 * |log.entries|
      && Audit.Number16(a, 0) == log.unloggedBoot && Audit.Number16(a, 2) == log.unloggedAuthentication && a[4] == |log.entries|
      && a[5 + 32 * i..5 + 32 * i + 32] == Audit.EncodeEntry(log.entries[i])
  {
    LogBytesAt(log.entries, i);
    var a := LogAnswer(log);
    assert a[..2] == EncodeU16(log.unloggedBoot) && a[2..4] == EncodeU16(log.unloggedAuthentication);
    assert a[5..] == LogBytes(log.entries);
    assert a[5 + 32 * i..5 + 32 * i + 32] == a[5..][32 * i..32 * i + 32];
  }

  lemma ReadLogInner(f: Foreign, d: Device, v: Option<Volatile.Store>, auth: SessionAuthorization)
    requires |d.durable.log.entries| <= 255
    ensures InnerWith(f, d, v, auth, READ_LOG, Answer(LogAnswer(d.durable.log))).response
            == Response(Cmd.GetLogEntries, LogAnswer(d.durable.log))
  {
    LogAnswerFits(d.durable.log, d.durable.log);
  }

  /** On every reachable device, for every capacity and even when the log is full under
      force-audit, GetLogEntries answers with the whole log. */
  lemma LogAlwaysAnswers(f: Foreign, config: DeviceConfig, serialized: bytes, inputs: seq<Input>, v: Option<Volatile.Store>,
                         auth: SessionAuthorization, env: Env)
    requires f.Lawful() && FactoryDefault(f, config, serialized).Ok? && Contains(auth.capabilities, GET_LOG_ENTRIES)
    ensures
      var d := Run(f, FactoryDefault(f, config, serialized).value, inputs);
      && |LogAnswer(d.durable.log)| == 5 + 32 * |d.durable.log.entries|
      && ExecuteInner(f, d, v, auth, READ_LOG, env).response == Response(Cmd.GetLogEntries, LogAnswer(d.durable.log))
  {
    FactoryRun(f, config, serialized, inputs);
    var d := Run(f, FactoryDefault(f, config, serialized).value, inputs);
    LogAnswerFits(d.durable.log, d.durable.log);
    ReadLogResult(f, d.config, d.durable, v, auth, env);
    ReadLogInner(f, d, v, auth);
  }

  // ----- what an entry says

  /** The sixteen bits at a position, zero when the bytes are too short. */
  function At(d: bytes, i: nat): u16 {
    if |d| < i + 2 then 0 else (d[i] as int) * 0x100 + d[i + 1]
  }

  /** The keys that a request names, in its own bytes. */
  predicate Tells(c: byte, d: bytes, own: u16, first: u16, second: u16) {
    if c == 0x04 /* AuthenticateSession */ then first == own && second == 0
    else if c == 0x64 /* SignAttestationCertificate */ then
      if |d| == 4 then first == At(d, 0) && second == At(d, 2) else first == 0 && second == 0
    else if c == 0x63 /* RewrapOtpAead */ then
      if |d| == 40 then first == At(d, 0) && second == At(d, 2) else first == 0 && second == 0
    else if c == 0x4a /* ExportWrapped */ || c == 0x76 /* ExportRsaWrapped */ then
      if (if c == 0x4a then 5 <= |d| <= 6 else |d| >= 8) && 1 <= d[2] <= 9
      then first == At(d, 3) && second == At(d, 0) else first == 0 && second == 0
    else first == At(d, 0) && second == 0
  }

  /** An entry about a request: its command and length, the session's key, the keys the request
      names, and the code of the answer. */
  predicate EntryTells(e: Audit.Entry, c: byte, d: bytes, own: u16, code: byte) {
    && e.command == c
    && e.length == (if |d| <= 0xffff then |d| else 0xffff)
    && e.sessionKey == own
    && Tells(c, d, own, e.targetKey, e.secondKey)
    && e.result == code
  }

  lemma FactTells(f: Foreign, log: Audit.Log, auth: SessionAuthorization, c: CommandCode, request: Frame, code: byte)
    ensures EntryTells(Audit.NextEntry(f.hash, log, FactOf(auth, c, request, code)), c, request.data, auth.keyId, code)
  {
  }

  /** Commands that can be audited, and are. */
  predicate MarkedForAudit(o: DeviceOptions, c: byte) {
    c !in {0x01, 0x05, 0x06, 0x0a, 0x40} && c in o.commandAudit && o.commandAudit[c] != 0
  }

  lemma MarkedExactly(o: DeviceOptions, c: CommandCode)
    ensures ShouldAudit(o, c) <==> MarkedForAudit(o, c)
  {
  }

  /** One entry more, and it tells of the request. */
  predicate LogsRequest(before: Device, after: Device, c: byte, d: bytes, own: u16, code: byte) {
    var a, b := before.durable.log.entries, after.durable.log.entries;
    |b| == |a| + 1 && b[..|a|] == a && EntryTells(b[|a|], c, d, own, code)
  }

  lemma AuditIfTells(f: Foreign, d: Device, auth: SessionAuthorization, c: CommandCode, request: Frame, code: byte)
    requires MarkedForAudit(d.durable.options, c) && |d.durable.log.entries| < d.config.logCapacity
    ensures LogsRequest(d, AuditIf(f, d, auth, c, request, code), c, request.data, auth.keyId, code)
  {
    FactTells(f, d.durable.log, auth, c, request, code);
  }

  /** An audited CreateSession for a key, with room in the log, adds an entry under that key, whatever
      came of it. */
  lemma CreateTells(f: Foreign, d: Device, request: Frame, env: Env)
    requires request.Valid() && request.command == 0x03 && |request.data| >= 2
    requires AuthorizationOf(d.durable.objects, DecodeU16(request.data[..2])).Ok?
    requires MarkedForAudit(d.durable.options, 0x03) && |d.durable.log.entries| < d.config.logCapacity
    ensures
      var (d', answer) := HandleEncoded(f, d, Encode(request), env);
      |answer| > 3 &&
      LogsRequest(d, d', 0x03, request.data, At(request.data, 0), if answer[0] == 0x7f then answer[3] else 0)
  {
    var met := Expire(d, env.now);
    EncodedCreate(f, d, request, env);
    CreateLogs(f, met, request, env);
  }

  lemma OpenAnswers(f: Foreign, d: Device, auth: SessionAuthorization, key: AuthenticationMaterial, peer: bytes, env: Env)
    ensures
      var made := OpenSession(f, d, auth, key, peer, env);
      && AfterOpen(d, made).durable.options == d.durable.options && AfterOpen(d, made).config == d.config
      && (|d.durable.log.entries| < d.config.logCapacity ==> AfterOpen(d, made).durable == d.durable)
      && (made.Ok? ==> |made.value.response| > 0)
  {
  }

  lemma CreateLogs(f: Foreign, d: Device, request: Frame, env: Env)
    requires |request.data| >= 2 && AuthorizationOf(d.durable.objects, DecodeU16(request.data[..2])).Ok?
    requires MarkedForAudit(d.durable.options, 0x03) && |d.durable.log.entries| < d.config.logCapacity
    ensures
      var (d', r) := CreateSession(f, d, request, env);
      && LogsRequest(d, d', 0x03, request.data, At(request.data, 0), ResultCode(r))
      && (r.Ok? ==> r.value.command == 0x83 && |r.value.data| > 0)
  {
    var id := DecodeU16(request.data[..2]);
    var auth := AuthorizationOf(d.durable.objects, id).value;
    var key := d.durable.objects[ObjectKey(AuthenticationKey, id)].material.key;
    OpenAnswers(f, d, auth, key, request.data[2..], env);
    var made := OpenSession(f, d, auth, key, request.data[2..], env);
    AuditIfTells(f, AfterOpen(d, made), auth, Cmd.CreateSession, request, ResultCode(made));
  }

  /** The same of an audited AuthenticateSession for a session of the table. */
  lemma AuthenticateTells(f: Foreign, d: Device, request: Frame, env: Env)
    requires request.Valid() && request.command == 0x04 && |request.data| > 0
    requires request.data[0] in Expire(d, env.now).sessions
    requires MarkedForAudit(d.durable.options, 0x04) && |d.durable.log.entries| < d.config.logCapacity
    ensures
      var (d', answer) := HandleEncoded(f, d, Encode(request), env);
      |answer| >= 3 && (answer[0] == 0x7f ==> |answer| > 3) &&
      LogsRequest(d, d', 0x04, request.data, d.sessions[request.data[0]].authorization.keyId,
                  if answer[0] == 0x7f then answer[3] else 0)
  {
    var met := Expire(d, env.now);
    EncodedAuthenticate(f, d, request, env);
    AuthenticateLogs(f, met, request, env);
  }

  lemma AuthenticateLogs(f: Foreign, d: Device, request: Frame, env: Env)
    requires |request.data| > 0 && request.data[0] in d.sessions
    requires MarkedForAudit(d.durable.options, 0x04) && |d.durable.log.entries| < d.config.logCapacity
    ensures
      var (d', r) := AuthenticateSession(f, d, request, env);
      && LogsRequest(d, d', 0x04, request.data, d.sessions[request.data[0]].authorization.keyId, ResultCode(r))
      && (r.Ok? ==> r.value.command == 0x84)
  {
    var sid := request.data[0];
    var admitted := Admit(f, d.sessions[sid], request, env);
    AuditIfTells(f, AfterAdmit(d, sid, admitted), d.sessions[sid].authorization, Cmd.AuthenticateSession, request,
                 ResultCode(admitted));
  }

  // ----- force-audit

  /** A supported command outside the small set that a full log never holds back, marked for audit. */
  predicate Audited(d: Device, inner: Frame) {
    && IsCommand(inner.command) && SupportedCommand(d.config.firmware, inner.command)
    && inner.command !in {0x01, 0x03, 0x04, 0x05, 0x06, 0x0a, 0x40, 0x4d, 0x67}
    && MarkedForAudit(d.durable.options, inner.command)
  }

  lemma AuditedIsGated(d: Device, inner: Frame)
    requires Audited(d, inner)
    ensures
      var c := SupportedFromByte(d.config, inner.command);
      c == Some(inner.command) && Gated(c.value) && ShouldAudit(d.durable.options, c.value)
  {
    MarkedExactly(d.durable.options, inner.command);
  }

  /** A full log under force-audit holds back every supported command but nine, audited or not. */
  lemma FullLogRefuses(f: Foreign, d: Device, entry: SessionEntry, inner: Frame, env: Env)
    requires d.durable.options.forceAudit != 0 && |d.durable.log.entries| >= d.config.logCapacity
    requires IsCommand(inner.command) && SupportedCommand(d.config.firmware, inner.command)
    requires !Denied(entry.authorization, inner)
    ensures inner.command !in {0x01, 0x03, 0x04, 0x05, 0x06, 0x0a, 0x40, 0x4d, 0x67} ==>
              RunInner(f, d, entry, inner, env) == Inner(d, Some(entry.objects), ErrorFrame(LogFull))
  {
  }

  /** The entries a command's own record follows. */
  function LogBefore(f: Foreign, d: Device, r: Result<Done>): Audit.Log {
    AfterEffect(f, d, r).durable.log
  }

  /** What a forced and audited command leads to. */
  predicate AccountedFor(f: Foreign, d: Device, entry: SessionEntry, inner: Frame, r: Result<Done>)
    requires IsCommand(inner.command)
  {
    var done := RunWith(f, d, entry, inner, r);
    var fact := FactOf(entry.authorization, inner.command, inner, ResultCode(SizeChecked(r)));
    if Denied(entry.authorization, inner) then done.device == d && done.response == ErrorFrame(InsufficientPermissions)
    else if LogFullNow(d) then done.device == d && done.response == ErrorFrame(LogFull)
    else
      && done.device.durable.log.entries
         == LogBefore(f, d, r).entries + [Audit.NextEntry(f.hash, LogBefore(f, d, r), fact)]
      && (EffectOf(r).Reset? || LogBefore(f, d, r) == d.durable.log)
      && done.response == ResultFrame(inner.command, SizeChecked(r))
  }

  lemma GatedAccounting(f: Foreign, d: Device, entry: SessionEntry, inner: Frame, r: Result<Done>)
    requires ResultPermitted(f, d, entry, inner, r) && d.durable.options.forceAudit != OFF
    requires SupportedFromByte(d.config, inner.command) == Some(inner.command)
    requires Gated(inner.command) && ShouldAudit(d.durable.options, inner.command)
    ensures AccountedFor(f, d, entry, inner, r)
  {
    if !Denied(entry.authorization, inner) && !LogFullNow(d) {
      assert !EffectOf(r).TrimLog?;
      assert !LogFullNow(AfterEffect(f, d, r));
    }
  }

  /** With force-audit on, an audited command is denied for its capability without a trace,
      or refused with LogFull and no change, or runs and adds exactly one entry that carries
      its result code. */
  lemma ForcedAuditAccounting(f: Foreign, d: Device, entry: SessionEntry, inner: Frame, r: Result<Done>)
    requires ResultPermitted(f, d, entry, inner, r)
    requires d.durable.options.forceAudit != OFF && Audited(d, inner)
    ensures AccountedFor(f, d, entry, inner, r)
  {
    AuditedIsGated(d, inner);
    GatedAccounting(f, d, entry, inner, r);
  }

  /** One entry was added, and it tells of the command and the code of its answer. */
  predicate LoggedOnce(before: seq<Audit.Entry>, done: Inner, auth: SessionAuthorization, inner: Frame) {
    var log := done.device.durable.log;
    && OneMore(before, log.entries)
    && EntryTells(LastEntry(log), inner.command, inner.data, auth.keyId, AnswerCode(done.response))
  }

  lemma AccountedEntry(f: Foreign, d: Device, entry: SessionEntry, inner: Frame, r: Result<Done>)
    requires ResultPermitted(f, d, entry, inner, r)
    requires d.durable.options.forceAudit != OFF && Audited(d, inner)
    requires !Denied(entry.authorization, inner) && !LogFullNow(d)
    ensures LoggedOnce(if EffectOf(r).Reset? then [] else d.durable.log.entries, RunWith(f, d, entry, inner, r),
                       entry.authorization, inner)
  {
    ForcedAuditAccounting(f, d, entry, inner, r);
    ErrorResponse(inner.command, SizeChecked(r));
    FactTells(f, LogBefore(f, d, r), entry.authorization, inner.command, inner, ResultCode(SizeChecked(r)));
  }

  /** The same of the command as the device runs it. */
  lemma ForcedAudit(f: Foreign, d: Device, entry: SessionEntry, inner: Frame, env: Env)
    requires f.Lawful() && SoundStore(f.keys, d.durable.objects)
    requires d.durable.options.forceAudit != OFF && Audited(d, inner) && !Denied(entry.authorization, inner)
    ensures
      var done := RunInner(f, d, entry, inner, env);
      if LogFullNow(d) then done.device == d && done.response == ErrorFrame(LogFull)
      else LoggedOnce(if RunsReset(f, d, entry, inner, env) then [] else d.durable.log.entries, done, entry.authorization, inner)
  {
    var r := ResultIsPermitted(f, d, entry, inner, env);
    AuditedIsGated(d, inner);
    if !LogFullNow(d) {
      AccountedEntry(f, d, entry, inner, r);
    }
  }

  predicate RunsReset(f: Foreign, d: Device, entry: SessionEntry, inner: Frame, env: Env) {
    InnerEffect(f, d, entry, inner, env).Reset?
  }

  predicate OneMore(before: seq<Audit.Entry>, after: seq<Audit.Entry>) {
    |after| == |before| + 1 && after[..|before|] == before
  }

  function LastEntry(log: Audit.Log): Audit.Entry
    requires log.entries != []
  {
    log.entries[|log.entries| - 1]
  }

  /** The code that a response reports: zero unless it is an error. */
  function AnswerCode(response: Frame): byte {
    if response.command == ERROR_COMMAND && |response.data| == 1 then response.data[0] else 0
  }

  function Saturating(n: u16): u16 {
    if n == 0xffff then n else n + 1
  }

  /** One entry, or one missed authentication. */
  predicate CountedOnce(before: Audit.Log, after: Audit.Log) {
    || (|after.entries| == |before.entries| + 1 && after.entries[..|before.entries|] == before.entries
        && after.unloggedAuthentication == before.unloggedAuthentication)
    || (after.entries == before.entries
        && after.unloggedAuthentication == Saturating(before.unloggedAuthentication))
  }

  /** With force-audit on, a successful authentication whose command is audited adds one entry
      or one to the unlogged counter, the counter exactly when the log is full. */
  lemma AuthenticationAccounting(f: Foreign, d: Device, h: Happening, env: Env)
    requires Plausible(f, d, h, env) && d.durable.options.forceAudit != OFF
    requires
      || (h.Authenticates? && h.admitted.Ok? && ShouldAudit(d.durable.options, Cmd.AuthenticateSession))
      || (h.Creates? && h.made.Ok? && h.made.value.entry.authenticated && ShouldAudit(d.durable.options, Cmd.CreateSession))
    ensures CountedOnce(d.durable.log, Replay(f, d, h).durable.log)
    ensures Replay(f, d, h).durable.log.entries == d.durable.log.entries <==> LogFullNow(d)
  {
    ReplayLog(f, d, h, env);
    var log := d.durable.log;
    var capacity := d.config.logCapacity;
    if LogFullNow(d) {
      var fact := LogOps(d, h)[1].fact;
      assert LogOps(d, h) == [Audit.MissAuthentication] + [Audit.Record(fact)];
      ApplyAllAppend(f.hash, capacity, log, [Audit.MissAuthentication], [Audit.Record(fact)]);
      ApplyOne(f.hash, capacity, log, Audit.MissAuthentication);
      ApplyOne(f.hash, capacity, Audit.CountUnlogged(log), Audit.Record(fact));
    } else {
      var fact := LogOps(d, h)[0].fact;
      assert LogOps(d, h) == [Audit.Record(fact)];
      ApplyOne(f.hash, capacity, log, Audit.Record(fact));
    }
  }

  /** The request is one whose success authenticates, and its command is audited. */
  predicate AuditedHandshake(d: Device, request: Frame) {
    && (request.command == Cmd.AuthenticateSession || request.command == Cmd.CreateSession)
    && d.durable.options.forceAudit != 0
    && MarkedForAudit(d.durable.options, request.command)
  }

  /** The new device counts the authentication once, and by an entry exactly when there was room. */
  predicate Accounted(before: Device, after: Device) {
    && CountedOnce(before.durable.log, after.durable.log)
    && (after.durable.log.entries == before.durable.log.entries <==> LogFullNow(before))
  }

  lemma AuthenticateAccounted(f: Foreign, d: Device, request: Frame, env: Env)
    requires f.Lawful() && AuditedHandshake(d, request) && request.command == Cmd.AuthenticateSession
    requires AuthenticateSession(f, d, request, env).1.Ok?
    ensures Accounted(d, AuthenticateSession(f, d, request, env).0)
  {
    var sid := request.data[0];
    MarkedExactly(d.durable.options, request.command);
    AuthenticationAccounting(f, d, Authenticates(sid, request, Admit(f, d.sessions[sid], request, env)), env);
  }

  /** The request names a key for an asymmetric handshake, whose session is authenticated at once. */
  predicate NamesPointKey(d: Device, request: Frame) {
    && |request.data| >= 2
    && var k := ObjectKey(AuthenticationKey, DecodeU16(request.data[..2]));
       k in d.durable.objects && d.durable.objects[k].material.Authentication?
       && d.durable.objects[k].material.key.HostPublicKey?
  }

  lemma CreateAccounted(f: Foreign, d: Device, request: Frame, env: Env)
    requires f.Lawful() && AuditedHandshake(d, request) && request.command == Cmd.CreateSession && NamesPointKey(d, request)
    requires CreateSession(f, d, request, env).1.Ok?
    ensures Accounted(d, CreateSession(f, d, request, env).0)
  {
    var id := DecodeU16(request.data[..2]);
    var auth := AuthorizationOf(d.durable.objects, id).value;
    var key := d.durable.objects[ObjectKey(AuthenticationKey, id)].material.key;
    var made := OpenSession(f, d, auth, key, request.data[2..], env);
    OpenedIsFresh(f, d, auth, key, request.data[2..], env);
    MarkedExactly(d.durable.options, request.command);
    AuthenticationAccounting(f, d, Creates(auth, request, made), env);
  }

  /** The answer carries a response and not an error. */
  predicate Succeeds(answer: bytes) {
    |answer| >= HEADER_LENGTH && answer[0] != ERROR_COMMAND
  }

  lemma FramedSucceeds(r: Result<Frame>)
    ensures Succeeds(Encode(Framed(r))) ==> r.Ok?
  {
  }

  /** An encoded AuthenticateSession answered with success adds one entry or, exactly when the
      log is full, one to the counter. */
  lemma AuthenticateRequestAccounting(f: Foreign, d: Device, request: Frame, env: Env)
    requires f.Lawful() && request.Valid() && AuditedHandshake(d, request) && request.command == Cmd.AuthenticateSession
    ensures
      var (d', answer) := HandleEncoded(f, d, Encode(request), env);
      Succeeds(answer) ==> Accounted(d, d')
  {
    var met := Expire(d, env.now);
    EncodedAuthenticate(f, d, request, env);
    FramedSucceeds(AuthenticateSession(f, met, request, env).1);
    if AuthenticateSession(f, met, request, env).1.Ok? {
      AuthenticateAccounted(f, met, request, env);
    }
  }

  /** An encoded CreateSession with such a key, answered with success, does the same. */
  lemma CreateRequestAccounting(f: Foreign, d: Device, request: Frame, env: Env)
    requires f.Lawful() && request.Valid() && AuditedHandshake(d, request) && request.command == Cmd.CreateSession
    requires NamesPointKey(d, request)
    ensures
      var (d', answer) := HandleEncoded(f, d, Encode(request), env);
      Succeeds(answer) ==> Accounted(d, d')
  {
    var met := Expire(d, env.now);
    EncodedCreate(f, d, request, env);
    var r := CreateSession(f, met, request, env).1;
    FramedSucceeds(r);
    if r.Ok? {
      CreateAccounted(f, met, request, env);
    }
  }

  // ----- the option latch

  lemma LatchedTransitive(a: DeviceOptions, b: DeviceOptions, c: DeviceOptions)
    requires Latched(a, b) && Latched(b, c)
    ensures Latched(a, c)
  {
  }

  lemma DurableLatches(keys: StaticKeys, d: Durable, e: Effect, d': Durable)
    requires !e.Reset? && Changes(keys, d, e, d')
    ensures Latched(d.options, d'.options)
  {
  }

  lemma StepLatches(f: Foreign, d: Device, i: Input)
    requires f.Lawful() && DeviceInv(f, d) && !EffectAt(f, d, i).Reset?
    ensures Latched(d.durable.options, Step(f, d, i).durable.options)
  {
    StepEffect(f, d, i);
    DurableLatches(f.factoryKeys, d.durable, EffectAt(f, d, i), Step(f, d, i).durable);
  }

  /** Along a run without a reset, no option leaves FIX. */
  lemma {:induction false} FixLatchOverRuns(f: Foreign, d: Device, inputs: seq<Input>)
    requires f.Lawful() && DeviceInv(f, d) && NeverResets(f, d, inputs)
    ensures Latched(d.durable.options, Run(f, d, inputs).durable.options)
    decreases |inputs|
  {
    if inputs != [] {
      var next := Step(f, d, inputs[0]);
      StepLatches(f, d, inputs[0]);
      StepKeepsInv(f, d, inputs[0]);
      FixLatchOverRuns(f, next, inputs[1..]);
      LatchedTransitive(d.durable.options, next.durable.options, Run(f, d, inputs).durable.options);
    }
  }

  // ----- a full log can be reopened

  const TRIM_ALL := Frame(Cmd.SetLogIndex, [0xff, 0xff])

  lemma TrimAllResult(f: Foreign, config: DeviceConfig, s: Durable, v: Option<Volatile.Store>, auth: SessionAuthorization, env: Env)
    requires Contains(auth.capabilities, SET_OPTION)
    ensures ExecuteResult(f, config, s, v, auth, TRIM_ALL, env) == Ok(Done([], TrimLog(0xffff)))
  {
    assert DecodeU16([0xff, 0xff]) == 0xffff;
  }

  lemma TrimAllEmpties(log: Audit.Log)
    ensures Audit.Trim(log, 0xffff).entries == []
  {
    Audit.RetainNone(log.entries, 0xffff);
  }

  /** Setting the index to 65535 reopens the log if and only if there is room for the entry
      that the command itself may add. */
  lemma LogReopens(f: Foreign, d: Device, v: Option<Volatile.Store>, auth: SessionAuthorization, env: Env)
    requires Contains(auth.capabilities, SET_OPTION)
    ensures
      !LogFullNow(ExecuteInner(f, d, v, auth, TRIM_ALL, env).device)
      <==> d.config.logCapacity >= 2
           || (d.config.logCapacity == 1 && !ShouldAudit(d.durable.options, Cmd.SetLogIndex))
  {
    TrimAllResult(f, d.config, d.durable, v, auth, env);
    TrimAllInner(f, d, v, auth);
  }

  lemma TrimAllInner(f: Foreign, d: Device, v: Option<Volatile.Store>, auth: SessionAuthorization)
    ensures
      !LogFullNow(InnerWith(f, d, v, auth, TRIM_ALL, Ok(Done([], TrimLog(0xffff)))).device)
      <==> d.config.logCapacity >= 2
           || (d.config.logCapacity == 1 && !ShouldAudit(d.durable.options, Cmd.SetLogIndex))
  {
    TrimAllEmpties(d.durable.log);
    FitsExactly(0);
  }
}
