/** The session table over runs, and what its counters and chaining values record. */
module Sessions {
  import opened Bytes
  import opened Errors
  import opened Frames
  import opened Envelope
  import opened Counter
  import opened SecureChannel
  import Cmd
  import opened Options
  import opened Authorization
  import opened Store
  import opened ForeignCode
  import opened Machine
  import opened Persistence
  import opened Trace
  import opened DeviceRuns
  import opened Epochs

  // ----- the table after a happening

  /** What a reset leaves behind. */
  predicate LooksReset(f: Foreign, d: Device) {
    && d.sessions == map[]
    && d.durable.options == DEFAULT_OPTIONS
    && d.durable.objects == map[FACTORY_KEY := FactoryRecord(f.factoryKeys)]
  }

  /** A reset ends the session that asked for it. */
  lemma ResetCloses(f: Foreign, d: Device, h: Happening, env: Env)
    requires h.Runs? && Plausible(f, d, h, env) && EffectOf(h.r).Reset?
    requires Handled(Without(d, h.sid), d.sessions[h.sid].authorization, h.inner)
    ensures h.next.None? && LooksReset(f, Ran(f, d, h))
  {
    var entry := d.sessions[h.sid];
    var without := Without(d, h.sid);
    HandledRun(f, without, entry, h.inner, h.r);
    EffectsFit(f, d.durable, Some(entry.objects), entry.authorization, h.inner.command, h.r.value);
    ErrorResponse(h.inner.command, SizeChecked(h.r));
    FitsExactly(0);
    assert ClosesSession(f, d, h.sid, h.inner, h.r);
  }

  /** A happening touches the entry it names and no other, unless it resets the device. */
  function TableAfter(d: Device, h: Happening): SessionTable
    requires h.Authenticates? || h.Runs? ==> h.sid in d.sessions
  {
    match h
    case Nothing => d.sessions
    case Creates(_, _, made) => if made.Ok? then d.sessions[made.value.sid := made.value.entry] else d.sessions
    case Authenticates(sid, _, admitted) =>
      if admitted.Ok? then d.sessions[sid := admitted.value] else d.sessions - {sid}
    case Drops(sid) => d.sessions - {sid}
    case Runs(sid, _, _, _, next) =>
      if Applied(d, h).Reset? then map[]
      else if next.Some? then d.sessions[sid := next.value] else d.sessions - {sid}
  }

  lemma RanTable(f: Foreign, d: Device, h: Happening, env: Env)
    requires h.Runs? && Plausible(f, d, h, env)
    ensures Ran(f, d, h).sessions == if Applied(d, h).Reset? then map[] else d.sessions - {h.sid}
    ensures Applied(d, h).Reset? ==> h.next.None?
  {
    var entry := d.sessions[h.sid];
    var without := Without(d, h.sid);
    if Handled(without, entry.authorization, h.inner) {
      HandledRun(f, without, entry, h.inner, h.r);
      if EffectOf(h.r).Reset? {
        ResetCloses(f, d, h, env);
      }
    } else {
      RefusedEarly(f, without, entry, h.inner, h.r);
    }
  }

  lemma ReplayTable(f: Foreign, d: Device, h: Happening, env: Env)
    requires Plausible(f, d, h, env)
    ensures Replay(f, d, h).sessions == TableAfter(d, h)
  {
    match h
    case Creates(auth, request, made) =>
      AuditIfOnlyLogs(f, AfterOpen(d, made), auth, Cmd.CreateSession, request, ResultCode(made));
    case Authenticates(sid, request, admitted) =>
      AuditIfOnlyLogs(f, AfterAdmit(d, sid, admitted), d.sessions[sid].authorization, Cmd.AuthenticateSession, request,
                      ResultCode(admitted));
    case Runs(sid, _, _, _, next) =>
      RanTable(f, d, h, env);
    case _ =>
  }

  // ----- stories

  /** What a session has been through: the chaining value and counter it was opened with, and
      the MACed part of every request accepted since, in order. */
  datatype Story = Story(start: bytes, first: nat, accepted: seq<bytes>)

  type Ledger = map<byte, Story>

  ghost predicate Told(f: Foreign, e: SessionEntry, s: Story) {
    && |s.start| == BLOCK_SIZE && s.first <= 1
    && e.secure.chaining == Chain(f.cipher, e.secure.sMac, s.start, s.accepted)
    && Number(e.secure.counter) == (s.first + |s.accepted|) % U128_MODULUS
    && (e.authenticated <==> s.first + |s.accepted| > 0)
  }

  predicate Shaped(sid: byte, e: SessionEntry) {
    && sid < MAX_SESSIONS && e.secure.sid == sid
    && e.authenticated == e.expected.None?
    && (!e.authenticated ==> Number(e.secure.counter) == 0)
  }

  ghost predicate TableInv(f: Foreign, sessions: SessionTable, ledger: Ledger) {
    && sessions.Keys == ledger.Keys
    && (forall sid | sid in sessions :: Shaped(sid, sessions[sid]) && Told(f, sessions[sid], ledger[sid]))
  }

  /** A session that is still there after a request naming it has accepted that request. */
  function Tell(ledger: Ledger, before: SessionTable, after: SessionTable, request: Frame): Ledger {
    map sid | sid in after ::
      if sid !in before || sid !in ledger
      then Story(after[sid].secure.chaining, if after[sid].authenticated then 1 else 0, [])
      else if Names(request, sid) then ledger[sid].(accepted := ledger[sid].accepted + [Prefix(request)])
      else ledger[sid]
  }

  /** Accepting a request extends the story by it. */
  lemma ToldMore(f: Foreign, e: SessionEntry, next: SessionEntry, s: Story, p: bytes)
    requires Told(f, e, s) && next.authenticated
    requires next.secure.sMac == e.secure.sMac && next.secure.counter == Increment(e.secure.counter)
    requires next.secure.chaining == f.cipher.cmac(e.secure.sMac, e.secure.chaining + p)
    ensures Told(f, next, s.(accepted := s.accepted + [p]))
  {
    var more := s.accepted + [p];
    assert more[..|more| - 1] == s.accepted && more[|more| - 1] == p;
    CountsModulo(e.secure.counter, s.first + |s.accepted|);
  }

  lemma FreshIsTold(f: Foreign, sid: byte, auth: SessionAuthorization, e: SessionEntry)
    requires sid < MAX_SESSIONS && FreshEntry(sid, auth, e)
    ensures Shaped(sid, e) && Told(f, e, Story(e.secure.chaining, if e.authenticated then 1 else 0, []))
  {
  }

  lemma AdmitChains(f: Foreign, e: SessionEntry, request: Frame, env: Env)
    requires Admit(f, e, request, env).Ok?
    ensures
      var next := Admit(f, e, request, env).value;
      && next.secure == e.secure.(counter := Increment(e.secure.counter), chaining := Chained(f.cipher, e.secure, request))
      && next.authenticated && next.expected.None?
  {
  }

  ghost predicate EntryTold(f: Foreign, sid: byte, after: SessionTable, ledger: Ledger)
    requires sid in after && sid in ledger
  {
    Shaped(sid, after[sid]) && Told(f, after[sid], ledger[sid])
  }

  lemma NamedIsTold(f: Foreign, d: Device, h: Happening, env: Env, ledger: Ledger, request: Frame)
    requires TableInv(f, d.sessions, ledger) && Plausible(f, d, h, env) && From(d, h, request)
    requires h.Authenticates? || h.Runs?
    requires h.sid in TableAfter(d, h)
    ensures EntryTold(f, h.sid, TableAfter(d, h), Tell(ledger, d.sessions, TableAfter(d, h), request))
  {
    var e, next := d.sessions[h.sid], TableAfter(d, h)[h.sid];
    if h.Authenticates? {
      AdmitChains(f, e, request, env);
    }
    ToldMore(f, e, next, ledger[h.sid], Prefix(request));
  }

  lemma OtherIsTold(f: Foreign, d: Device, h: Happening, env: Env, ledger: Ledger, request: Frame, sid: byte)
    requires TableInv(f, d.sessions, ledger) && Plausible(f, d, h, env) && From(d, h, request)
    requires sid in TableAfter(d, h) && !((h.Authenticates? || h.Runs?) && h.sid == sid)
    ensures EntryTold(f, sid, TableAfter(d, h), Tell(ledger, d.sessions, TableAfter(d, h), request))
  {
    if sid !in d.sessions {
      FreshIsTold(f, sid, h.auth, TableAfter(d, h)[sid]);
    }
  }

  lemma ReplayKeepsTable(f: Foreign, d: Device, h: Happening, env: Env, ledger: Ledger, request: Frame)
    requires TableInv(f, d.sessions, ledger) && Plausible(f, d, h, env) && From(d, h, request)
    ensures TableInv(f, TableAfter(d, h), Tell(ledger, d.sessions, TableAfter(d, h), request))
  {
    var after := TableAfter(d, h);
    var ledger' := Tell(ledger, d.sessions, after, request);
    forall sid | sid in after
      ensures EntryTold(f, sid, after, ledger')
    {
      if (h.Authenticates? || h.Runs?) && h.sid == sid {
        NamedIsTold(f, d, h, env, ledger, request);
      } else {
        OtherIsTold(f, d, h, env, ledger, request, sid);
      }
    }
  }

  // ----- runs

  /** The stories of the sessions that are left, without any new request. */
  function Left(ledger: Ledger, sessions: SessionTable): Ledger {
    map sid | sid in ledger && sid in sessions :: ledger[sid]
  }

  lemma LeftKeepsTable(f: Foreign, sessions: SessionTable, fewer: SessionTable, ledger: Ledger)
    requires TableInv(f, sessions, ledger)
    requires forall sid | sid in fewer :: sid in sessions && fewer[sid] == sessions[sid]
    ensures TableInv(f, fewer, Left(ledger, fewer))
  {
  }

  /** The ledger after an input: expired sessions leave it, then the request is told. */
  function LedgerAfter(ledger: Ledger, d: Device, d': Device, i: Input): Ledger {
    var met := Met(d, i).sessions;
    if i.Request? && Parse(i.encoded).Ok? then Tell(Left(ledger, met), met, d'.sessions, Parse(i.encoded).value)
    else Left(ledger, d'.sessions)
  }

  lemma RequestKeepsTable(f: Foreign, d: Device, i: Input, ledger: Ledger)
    requires f.Lawful() && DeviceInv(f, d) && TableInv(f, d.sessions, ledger) && i.Request?
    ensures
      var d' := HandleEncoded(f, d, i.encoded, i.env).0;
      TableInv(f, d'.sessions, LedgerAfter(ledger, d, d', i))
  {
    var start, h := EncodedIsHappening(f, d, i.encoded, i.env);
    LeftKeepsTable(f, d.sessions, start.sessions, ledger);
    ReplayTable(f, start, h, i.env);
    if Parse(i.encoded).Ok? {
      ReplayKeepsTable(f, start, h, i.env, Left(ledger, start.sessions), Parse(i.encoded).value);
    }
  }

  lemma StepKeepsTable(f: Foreign, d: Device, i: Input, ledger: Ledger)
    requires f.Lawful() && DeviceInv(f, d) && TableInv(f, d.sessions, ledger)
    ensures TableInv(f, Step(f, d, i).sessions, LedgerAfter(ledger, d, Step(f, d, i), i))
  {
    if i.Request? {
      RequestKeepsTable(f, d, i, ledger);
    } else if i.Restart? {
      RestartLosesOnlySessions(f, d);
    }
  }

  function LedgerOf(f: Foreign, d: Device, inputs: seq<Input>, ledger: Ledger): Ledger
    decreases |inputs|
  {
    if inputs == [] then ledger
    else
      var d' := Step(f, d, inputs[0]);
      LedgerOf(f, d', inputs[1..], LedgerAfter(ledger, d, d', inputs[0]))
  }

  lemma {:induction false} RunKeepsTable(f: Foreign, d: Device, inputs: seq<Input>, ledger: Ledger)
    requires f.Lawful() && DeviceInv(f, d) && TableInv(f, d.sessions, ledger)
    ensures TableInv(f, Run(f, d, inputs).sessions, LedgerOf(f, d, inputs, ledger))
    decreases |inputs|
  {
    if inputs != [] {
      var d' := Step(f, d, inputs[0]);
      StepKeepsInv(f, d, inputs[0]);
      StepKeepsTable(f, d, inputs[0], ledger);
      RunKeepsTable(f, d', inputs[1..], LedgerAfter(ledger, d, d', inputs[0]));
    }
  }

  lemma {:induction false} AtMost(keys: set<byte>, n: nat)
    requires forall k | k in keys :: k < n
    ensures |keys| <= n
  {
    if n == 0 {
      if k :| k in keys {
        assert false;
      }
    } else {
      AtMost(keys - {n - 1}, n - 1);
    }
  }

  lemma TableIsSmall(f: Foreign, sessions: SessionTable, ledger: Ledger)
    requires TableInv(f, sessions, ledger)
    ensures |sessions| <= MAX_SESSIONS
  {
    AtMost(sessions.Keys, MAX_SESSIONS);
    assert |sessions.Keys| == |sessions|;
  }

  /** From factory default: at most 16 entries, each under its own identifier; an entry waits
      for a cryptogram exactly while it is unauthenticated, with counter zero; and counter and
      chaining value are those of the requests accepted, in order. */
  lemma SessionTableOverRuns(f: Foreign, config: DeviceConfig, serialized: bytes, inputs: seq<Input>)
    requires f.Lawful() && FactoryDefault(f, config, serialized).Ok?
    ensures
      var d := FactoryDefault(f, config, serialized).value;
      var sessions := Run(f, d, inputs).sessions;
      |sessions| <= MAX_SESSIONS && TableInv(f, sessions, LedgerOf(f, d, inputs, map[]))
  {
    var d := FactoryDefault(f, config, serialized).value;
    FactoryIsSound(f, config.logCapacity, d.durable.deviceKey);
    RunKeepsTable(f, d, inputs, map[]);
    TableIsSmall(f, Run(f, d, inputs).sessions, LedgerOf(f, d, inputs, map[]));
  }

  /** An input leaves every entry it does not name as it was, except by timeout, by the loss of
      all sessions, or by a reset. */
  lemma OthersUnaffected(f: Foreign, d: Device, encoded: bytes, env: Env, sid: byte)
    requires f.Lawful() && DeviceInv(f, d)
    requires sid in d.sessions && env.now - d.sessions[sid].lastActivity < SESSION_TIMEOUT
    requires Parse(encoded).Ok? ==> !Names(Parse(encoded).value, sid)
    ensures
      var after := HandleEncoded(f, d, encoded, env).0.sessions;
      if RequestEffect(f, d, encoded, env).Reset? then after == map[]
      else sid in after && after[sid] == d.sessions[sid]
  {
    var start, h := EncodedIsHappening(f, d, encoded, env);
    ReplayTable(f, start, h, env);
    OthersInTable(start, h, sid);
  }

  lemma OthersInTable(d: Device, h: Happening, sid: byte)
    requires h.Authenticates? || h.Drops? || h.Runs? ==> h.sid in d.sessions && h.sid != sid
    requires sid in d.sessions && (h.Creates? && h.made.Ok? ==> h.made.value.sid != sid)
    ensures if Applied(d, h).Reset? then TableAfter(d, h) == map[]
            else sid in TableAfter(d, h) && TableAfter(d, h)[sid] == d.sessions[sid]
  {
  }

  /** With equal keys and equal beginnings, equal chaining values mean that the same requests
      were accepted in the same order, or else the MAC is broken on inputs they used. */
  lemma ChainingDeterminesHistory(f: Foreign, a: SessionEntry, s: Story, b: SessionEntry, t: Story)
    requires f.Lawful() && Told(f, a, s) && Told(f, b, t)
    requires a.secure.sMac == b.secure.sMac && s.start == t.start && a.secure.chaining == b.secure.chaining
    ensures s.accepted == t.accepted || MacBroken(f.cipher, a.secure.sMac, s.start, s.accepted, t.accepted)
  {
    ChainBindsHistory(f.cipher, a.secure.sMac, s.start, s.accepted, t.accepted);
  }

  /** At two moments of one session, or of two opened alike, the counter is the same exactly when
      the numbers of requests accepted differ by a multiple of 2^128. */
  lemma CountersRepeatExactly(f: Foreign, a: SessionEntry, s: Story, b: SessionEntry, t: Story)
    requires Told(f, a, s) && Told(f, b, t) && s.first == t.first
    ensures a.secure.counter == b.secure.counter <==> (|s.accepted| - |t.accepted|) % U128_MODULUS == 0
  {
    if Number(a.secure.counter) == Number(b.secure.counter) {
      NumberInjective(a.secure.counter, b.secure.counter);
    }
    SameRemainder(s.first, |s.accepted|, |t.accepted|);
  }

  lemma SameRemainder(first: nat, m: nat, n: nat)
    ensures (first + m) % U128_MODULUS == (first + n) % U128_MODULUS <==> (m - n) % U128_MODULUS == 0
  {
  }
}
