/** Powers never grow along chains of created keys. */
module Attenuation {
  import opened Bytes
  import opened Errors
  import opened Capabilities
  import opened Frames
  import opened Objects
  import opened Protocol
  import Cmd
  import opened Authorization
  import opened Store
  import opened ForeignCode
  import opened Commands
  import opened Discipline
  import opened Machine
  import opened Persistence
  import opened Trace
  import opened DeviceRuns
  import opened Epochs
  import opened Sessions

  /** What descends from a root key: the objects made so far and the sessions opened. */
  datatype Tree = Tree(keys: set<ObjectKey>, sids: set<byte>)

  /** The root as it was when the run began, and every object of that moment. */
  datatype Root = Root(key: ObjectKey, info: ObjectInfo, base: ObjectMap)

  /** The tree's keys when its store is this one. */
  function Regrow(t: Tree, before: ObjectMap, after: ObjectMap): Tree {
    t.(keys := set k | k in after && (k in t.keys || k !in before))
  }

  /** New objects and new sessions join the tree; what disappears leaves it. */
  function Grow(t: Tree, before: Device, after: Device): Tree {
    Tree(Regrow(t, before.durable.objects, after.durable.objects).keys,
         set sid | sid in after.sessions && (sid in t.sids || sid !in before.sessions))
  }

  /** A request acts through the tree: it opens a session of one of its keys, or addresses
      one of its sessions or none at all. Sessions of other keys may exist but stay silent. */
  predicate ActsWithin(d: Device, t: Tree, root: ObjectKey, request: Frame) {
    && (request.command == Cmd.CreateSession && |request.data| >= 2 ==>
          var k := ObjectKey(AuthenticationKey, DecodeU16(request.data[..2]));
          k == root || k in t.keys)
    && ((request.command == Cmd.AuthenticateSession || request.command == Cmd.SessionMessage) && |request.data| > 0 ==>
          request.data[0] in t.sids || request.data[0] !in d.sessions)
  }

  predicate InputWithin(d: Device, t: Tree, root: ObjectKey, i: Input) {
    i.Request? && Parse(i.encoded).Ok? ==> ActsWithin(d, t, root, Parse(i.encoded).value)
  }

  ghost predicate RunWithin(f: Foreign, d: Device, t: Tree, root: ObjectKey, inputs: seq<Input>)
    decreases |inputs|
  {
    inputs == [] ||
    (var d' := Step(f, d, inputs[0]);
     InputWithin(d, t, root, inputs[0]) && RunWithin(f, d', Grow(t, Met(d, inputs[0]), d'), root, inputs[1..]))
  }

  function GrowRun(f: Foreign, d: Device, t: Tree, inputs: seq<Input>): Tree
    decreases |inputs|
  {
    if inputs == [] then t
    else
      var d' := Step(f, d, inputs[0]);
      GrowRun(f, d', Grow(t, Met(d, inputs[0]), d'), inputs[1..])
  }

  // ----- the invariant

  /** A session of the root itself, or one below what the root may delegate. */
  predicate Tame(a: SessionAuthorization, root: ObjectInfo) {
    || (a.capabilities == root.capabilities && a.delegated == root.delegated && a.domains == root.domains)
    || AuthorizationBounded(a, root.delegated, root.domains)
  }

  /** Every object is bounded by the root's delegation or an original with its original powers. */
  predicate ObjectKept(root: Root, t: Tree, k: ObjectKey, info: ObjectInfo) {
    if k in t.keys then InfoBounded(info, root.info.delegated, root.info.domains)
    else k in root.base && SamePowers(info, root.base[k].info)
  }

  ghost predicate StoreKept(root: Root, t: Tree, objects: ObjectMap) {
    forall k | k in objects :: ObjectKept(root, t, k, objects[k].info)
  }

  ghost predicate SessionsTame(root: Root, t: Tree, sessions: SessionTable) {
    forall sid | sid in sessions && sid in t.sids :: Tame(sessions[sid].authorization, root.info)
  }

  ghost predicate TreeInv(root: Root, t: Tree, d: Device) {
    && StoreKept(root, t, d.durable.objects)
    && SessionsTame(root, t, d.sessions)
  }

  predicate CannotReset(root: Root) {
    && root.key.objectType.AuthenticationKey? && root.key in root.base && root.base[root.key].info == root.info
    && !Contains(root.info.capabilities, RESET_DEVICE)
    && !Contains(root.info.delegated, RESET_DEVICE)
  }

  lemma TameLacksReset(root: Root, a: SessionAuthorization)
    requires CannotReset(root) && Tame(a, root.info)
    ensures !Contains(a.capabilities, RESET_DEVICE)
    ensures DelegatesWithin(a, root.info.delegated, root.info.domains)
  {
    if AuthorizationBounded(a, root.info.delegated, root.info.domains) {
      BoundedLacks(a, root.info.delegated, root.info.domains, RESET_DEVICE);
    } else {
      SubsetReflexive(a.delegated);
    }
  }

  lemma SubsetReflexive(a: CapabilitySet)
    ensures IsSubsetOf(a, a)
  {
    SubsetMeaning(a, a);
  }

  /** What an attenuated write makes is bounded by the root. */
  lemma AttenuatedIsBounded(root: Root, a: SessionAuthorization, info: ObjectInfo)
    requires Attenuated(a, info) && DelegatesWithin(a, root.info.delegated, root.info.domains)
    ensures InfoBounded(info, root.info.delegated, root.info.domains)
  {
    SubsetTransitive(info.capabilities, a.delegated, root.info.delegated);
    SubsetTransitive(info.delegated, a.delegated, root.info.delegated);
    WithinTransitive(info.domains, a.domains, root.info.domains);
  }

  // ----- one happening

  /** The happening is the tree's. */
  predicate HappensWithin(h: Happening, t: Tree, root: ObjectKey) {
    match h
    case Nothing => true
    case Creates(auth, _, _) => var k := ObjectKey(AuthenticationKey, auth.keyId); k == root || k in t.keys
    case Authenticates(sid, _, _) => sid in t.sids
    case Drops(sid) => sid in t.sids
    case Runs(sid, _, _, _, _) => sid in t.sids
  }

  lemma ActsHappen(d: Device, t: Tree, root: ObjectKey, request: Frame, f: Foreign, start: Device, h: Happening, env: Env)
    requires ActsWithin(d, t, root, request) && From(start, h, request) && Plausible(f, start, h, env)
    requires forall sid | sid in start.sessions :: sid in d.sessions
    ensures HappensWithin(h, t, root)
  {
  }

  lemma WriteKept(root: Root, t: Tree, objects: ObjectMap, a: SessionAuthorization, r: ObjectRecord, written: ObjectRecord)
    requires StoreKept(root, t, objects) && DelegatesWithin(a, root.info.delegated, root.info.domains)
    requires WriteAllowed(objects, a, r.info) && SamePowers(written.info, r.info)
    ensures
      var after := objects[r.info.Key() := written];
      StoreKept(root, Regrow(t, objects, after), after)
  {
    if r.info.Key() !in objects {
      AttenuatedIsBounded(root, a, r.info);
    }
  }

  lemma RemoveKept(root: Root, t: Tree, objects: ObjectMap, gone: set<ObjectKey>)
    requires StoreKept(root, t, objects)
    ensures StoreKept(root, Regrow(t, objects, objects - gone), objects - gone)
  {
  }

  lemma EffectStaysInTree(f: Foreign, root: Root, t: Tree, d: Device, entry: SessionEntry, c: CommandCode, done: Done)
    requires CannotReset(root) && StoreKept(root, t, d.durable.objects) && Tame(entry.authorization, root.info)
    requires Permitted(f, d.durable, Some(entry.objects), entry.authorization, c, done)
    ensures !done.effect.Reset?
    ensures
      var objects := ApplyDurable(f.factoryKeys, d.durable, done.effect).objects;
      StoreKept(root, Regrow(t, d.durable.objects, objects), objects)
  {
    var objects := d.durable.objects;
    TameLacksReset(root, entry.authorization);
    RemoveKept(root, t, objects, {});
    assert objects - {} == objects;
    match done.effect
    case WriteObject(r) =>
      WriteKept(root, t, objects, entry.authorization, r, Sequenced(d.durable.generations, r));
    case RemoveObject(k) =>
      RemoveKept(root, t, objects, {k});
    case _ =>
  }

  lemma RanStaysInTree(f: Foreign, root: Root, t: Tree, d: Device, h: Happening, env: Env)
    requires CannotReset(root) && TreeInv(root, t, d)
    requires h.Runs? && Plausible(f, d, h, env) && h.sid in t.sids
    ensures
      var d' := Ran(f, d, h);
      && StoreKept(root, Grow(t, d, d'), d'.durable.objects)
      && d'.sessions == Without(d, h.sid).sessions
      && !Applied(d, h).Reset?
  {
    var entry := d.sessions[h.sid];
    var without := Without(d, h.sid);
    if Handled(without, entry.authorization, h.inner) {
      HandledRun(f, without, entry, h.inner, h.r);
      if h.r.Ok? {
        EffectStaysInTree(f, root, t, d, entry, h.inner.command, h.r.value);
      }
    } else {
      RefusedEarly(f, without, entry, h.inner, h.r);
    }
  }

  /** Keys of the tree open sessions within the tree's bounds. */
  lemma SnapshotIsTame(root: Root, t: Tree, d: Device, auth: SessionAuthorization)
    requires CannotReset(root) && StoreKept(root, t, d.durable.objects)
    requires AuthorizationOf(d.durable.objects, auth.keyId) == Ok(auth)
    requires var k := ObjectKey(AuthenticationKey, auth.keyId); k == root.key || k in t.keys
    ensures Tame(auth, root.info)
  {
    var k := ObjectKey(AuthenticationKey, auth.keyId);
    assert ObjectKept(root, t, k, d.durable.objects[k].info);
  }

  lemma HandshakeTable(f: Foreign, root: Root, t: Tree, d: Device, h: Happening, env: Env)
    requires CannotReset(root) && TreeInv(root, t, d)
    requires !h.Runs? && Plausible(f, d, h, env) && HappensWithin(h, t, root.key)
    ensures
      var after := TableAfter(d, h);
      forall sid | sid in after && (sid in t.sids || sid !in d.sessions) :: Tame(after[sid].authorization, root.info)
  {
    if h.Creates? {
      SnapshotIsTame(root, t, d, h.auth);
    }
  }

  lemma HandshakeStaysInTree(f: Foreign, root: Root, t: Tree, d: Device, h: Happening, env: Env)
    requires CannotReset(root) && TreeInv(root, t, d)
    requires !h.Runs? && Plausible(f, d, h, env) && HappensWithin(h, t, root.key)
    ensures TreeInv(root, Grow(t, d, Replay(f, d, h)), Replay(f, d, h))
  {
    HandshakesOnlyLog(f, d, h, env);
    ReplayTable(f, d, h, env);
    HandshakeTable(f, root, t, d, h, env);
    Regrown(root, t, d, Replay(f, d, h));
  }

  lemma Regrown(root: Root, t: Tree, d: Device, d': Device)
    requires TreeInv(root, t, d) && d'.durable.objects == d.durable.objects
    requires forall sid | sid in d'.sessions && (sid in t.sids || sid !in d.sessions) ::
               Tame(d'.sessions[sid].authorization, root.info)
    ensures TreeInv(root, Grow(t, d, d'), d')
  {
  }

  lemma ReplayStaysInTree(f: Foreign, root: Root, t: Tree, d: Device, h: Happening, env: Env)
    requires CannotReset(root) && TreeInv(root, t, d)
    requires Plausible(f, d, h, env) && HappensWithin(h, t, root.key)
    ensures
      var d' := Replay(f, d, h);
      && TreeInv(root, Grow(t, d, d'), d')
      && !Applied(d, h).Reset?
  {
    if h.Runs? {
      RanStaysInTree(f, root, t, d, h, env);
    } else {
      HandshakeStaysInTree(f, root, t, d, h, env);
    }
  }

  // ----- runs

  /** The invariant after a step, of the tree as it has grown. */
  ghost predicate TreeStep(root: Root, t: Tree, met: Device, after: Device) {
    TreeInv(root, Grow(t, met, after), after)
  }

  lemma EncodedStaysInTree(f: Foreign, root: Root, t: Tree, d: Device, i: Input)
    requires f.Lawful() && DeviceInv(f, d) && CannotReset(root) && TreeInv(root, t, d)
    requires i.Request? && InputWithin(d, t, root.key, i)
    ensures TreeStep(root, t, Met(d, i), HandleEncoded(f, d, i.encoded, i.env).0)
    ensures !RequestEffect(f, d, i.encoded, i.env).Reset?
  {
    var start, h := EncodedIsHappening(f, d, i.encoded, i.env);
    if Parse(i.encoded).Ok? {
      ActsHappen(d, t, root.key, Parse(i.encoded).value, f, start, h, i.env);
    }
    ReplayStaysInTree(f, root, t, start, h, i.env);
  }

  lemma GrownAlike(root: Root, t: Tree, met: Device, a: Device, b: Device)
    requires a.durable == b.durable && a.sessions == b.sessions && TreeStep(root, t, met, a)
    ensures TreeStep(root, t, met, b)
  {
  }

  lemma RequestStaysInTree(f: Foreign, root: Root, t: Tree, d: Device, i: Input)
    requires f.Lawful() && DeviceInv(f, d) && CannotReset(root) && TreeInv(root, t, d)
    requires i.Request? && InputWithin(d, t, root.key, i)
    ensures TreeStep(root, t, Met(d, i), Step(f, d, i))
  {
    EncodedStaysInTree(f, root, t, d, i);
    CommitKeeps(f, d, i);
    GrownAlike(root, t, Met(d, i), HandleEncoded(f, d, i.encoded, i.env).0, Step(f, d, i));
  }

  lemma QuietStaysInTree(f: Foreign, root: Root, t: Tree, d: Device, i: Input)
    requires DeviceInv(f, d) && TreeInv(root, t, d) && !i.Request?
    ensures TreeStep(root, t, Met(d, i), Step(f, d, i))
  {
    if i.Restart? {
      RestartLosesOnlySessions(f, d);
    }
    Regrown(root, t, d, Step(f, d, i));
  }

  lemma StepStaysInTree(f: Foreign, root: Root, t: Tree, d: Device, i: Input)
    requires f.Lawful() && DeviceInv(f, d) && CannotReset(root) && TreeInv(root, t, d)
    requires InputWithin(d, t, root.key, i)
    ensures TreeStep(root, t, Met(d, i), Step(f, d, i)) && !EffectAt(f, d, i).Reset?
  {
    if i.Request? {
      RequestStaysInTree(f, root, t, d, i);
      EncodedStaysInTree(f, root, t, d, i);
    } else {
      QuietStaysInTree(f, root, t, d, i);
    }
  }

  /** Acted on only through the tree, the device holds originals with their original powers
      and objects whose capabilities, delegated capabilities and domains lie within the root's
      delegation; and it is never reset. */
  lemma {:induction false} TransitiveAttenuation(f: Foreign, root: Root, t: Tree, d: Device, inputs: seq<Input>)
    requires f.Lawful() && DeviceInv(f, d) && CannotReset(root) && TreeInv(root, t, d)
    requires RunWithin(f, d, t, root.key, inputs)
    ensures TreeInv(root, GrowRun(f, d, t, inputs), Run(f, d, inputs))
    ensures NeverResets(f, d, inputs)
    decreases |inputs|
  {
    if inputs != [] {
      var d' := Step(f, d, inputs[0]);
      StepKeepsInv(f, d, inputs[0]);
      StepStaysInTree(f, root, t, d, inputs[0]);
      TransitiveAttenuation(f, root, Grow(t, Met(d, inputs[0]), d'), d', inputs[1..]);
    }
  }

  /** The run may begin with nothing but the root's key and any silent sessions of others. */
  lemma AttenuationBegins(d: Device, key: ObjectKey)
    requires key in d.durable.objects
    ensures TreeInv(Root(key, d.durable.objects[key].info, d.durable.objects), Tree({}, {}), d)
  {
  }

  /** Every session of the tree that asks for a reset is refused before anything happens. */
  lemma ResetRefused(f: Foreign, root: Root, t: Tree, d: Device, sid: byte, inner: Frame, r: Result<Done>)
    requires CannotReset(root) && TreeInv(root, t, d)
    requires sid in d.sessions && sid in t.sids && inner.command == Cmd.ResetDevice
    ensures RunWith(f, d, d.sessions[sid], inner, r)
            == Inner(d, Some(d.sessions[sid].objects), ErrorFrame(InsufficientPermissions))
  {
    TameLacksReset(root, d.sessions[sid].authorization);
  }
}
