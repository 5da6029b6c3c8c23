/** The chained audit log. */
module Audit {
  import opened Bytes

  const DIGEST_LENGTH := 16
  const LAST_NUMBER := 0xffff

  type Digest = d: bytes | |d| == DIGEST_LENGTH witness Zeros(DIGEST_LENGTH)

  datatype Entry = Entry(
    number: u16,
    command: byte,
    length: u16,
    sessionKey: u16,
    targetKey: u16,
    secondKey: u16,
    result: byte,
    systick: u32,
    digest: Digest)

  datatype Log = Log(
    entries: seq<Entry>,
    nextNumber: u16,
    systick: u32,
    previousDigest: Digest,
    unloggedBoot: u16,
    unloggedAuthentication: u16)

  const EMPTY_LOG := Log([], 1, 0, Zeros(16), 0, 0)

  /** What a caller supplies for an entry. */
  datatype Fact = Fact(command: byte, length: u16, sessionKey: u16, targetKey: u16, secondKey: u16, result: byte)

  function Covered(e: Entry): (s: bytes)
    ensures |s| == 16
  {
    EncodeU16(e.number) + [e.command] + EncodeU16(e.length) + EncodeU16(e.sessionKey) + EncodeU16(e.targetKey)
    + EncodeU16(e.secondKey) + [e.result] + EncodeU32(e.systick)
  }

  const ENTRY_LENGTH := 32

  function EncodeEntry(e: Entry): (s: bytes)
    ensures |s| == ENTRY_LENGTH
  {
    Covered(e) + e.digest
  }

  /** The 32 bytes of an entry determine it. */
  lemma EntryReadable(a: Entry, b: Entry)
    requires EncodeEntry(a) == EncodeEntry(b)
    ensures a == b
  {
    var x, y := EncodeEntry(a), EncodeEntry(b);
    assert x[..16] == Covered(a) && y[..16] == Covered(b) && x[16..] == a.digest && y[16..] == b.digest;
    CoveredReadable(a, b);
  }

  lemma CoveredReadable(a: Entry, b: Entry)
    requires Covered(a) == Covered(b)
    ensures a.(digest := b.digest) == b
  {
    var x, y := Covered(a), Covered(b);
    assert x[0..2] == EncodeU16(a.number) && y[0..2] == EncodeU16(b.number);
    assert x[3..5] == EncodeU16(a.length) && y[3..5] == EncodeU16(b.length);
    assert x[5..7] == EncodeU16(a.sessionKey) && y[5..7] == EncodeU16(b.sessionKey);
    assert x[7..9] == EncodeU16(a.targetKey) && y[7..9] == EncodeU16(b.targetKey);
    assert x[9..11] == EncodeU16(a.secondKey) && y[9..11] == EncodeU16(b.secondKey);
    assert x[2] == a.command && y[2] == b.command && x[11] == a.result && y[11] == b.result;
    assert x[12..16] == EncodeU32(a.systick) && y[12..16] == EncodeU32(b.systick);
    EncodeU32Injective(a.systick, b.systick);
  }

  function Number16(s: bytes, i: nat): int
    requires i + 2 <= |s|
  {
    (s[i] as int) * 0x100 + s[i + 1]
  }

  /** Where each field of an entry stands, most significant byte first. */
  lemma EntryLayout(e: Entry)
    ensures
      var s := EncodeEntry(e);
      && Number16(s, 0) == e.number && s[2] == e.command && Number16(s, 3) == e.length && Number16(s, 5) == e.sessionKey
      && Number16(s, 7) == e.targetKey && Number16(s, 9) == e.secondKey && s[11] == e.result
      && Number16(s, 12) * 0x1_0000 + Number16(s, 14) == e.systick && s[16..] == e.digest
  {
    var s, c := EncodeEntry(e), Covered(e);
    assert s[..16] == c && s[16..] == e.digest;
    assert c[..12] == EncodeU16(e.number) + [e.command] + EncodeU16(e.length) + EncodeU16(e.sessionKey)
                      + EncodeU16(e.targetKey) + EncodeU16(e.secondKey) + [e.result];
    assert c[12..] == EncodeU32(e.systick);
    forall i | 0 <= i < 16
      ensures s[i] == c[i]
    {
    }
    TickLayout(e.systick, c);
  }

  lemma TickLayout(n: u32, c: bytes)
    requires |c| == 16 && c[12..] == EncodeU32(n)
    ensures Number16(c, 12) * 0x1_0000 + Number16(c, 14) == n
  {
    assert c[12] == c[12..][0] && c[13] == c[12..][1] && c[14] == c[12..][2] && c[15] == c[12..][3];
    assert Number16(c, 12) == n / 0x1_0000 && Number16(c, 14) == n % 0x1_0000;
  }

  /** An entry's digest is the beginning of the hash of its first sixteen bytes and the digest before. */
  lemma DigestCovers(hash: Hash, log: Log, f: Fact)
    requires forall x :: |hash(x)| >= 16
    ensures
      var e := NextEntry(hash, log, f);
      && e.digest == hash(EncodeEntry(e)[..16] + log.previousDigest)[..16]
      && e == Entry(log.nextNumber, f.command, f.length, f.sessionKey, f.targetKey, f.secondKey, f.result, log.systick, e.digest)
  {
    var e := NextEntry(hash, log, f);
    assert EncodeEntry(e)[..16] == Covered(e) == Covered(e.(digest := Zeros(16)));
  }

  type Hash = bytes -> bytes

  /** The hash of the covered bytes and the previous digest, cut to 16 bytes; hashes are long
      enough. */
  function DigestOf(hash: Hash, e: Entry, previous: bytes): Digest {
    var h := hash(Covered(e) + previous);
    if |h| >= DIGEST_LENGTH then h[..DIGEST_LENGTH] else Zeros(DIGEST_LENGTH)
  }

  function NextEntry(hash: Hash, log: Log, f: Fact): Entry {
    var e := Entry(log.nextNumber, f.command, f.length, f.sessionKey, f.targetKey, f.secondKey, f.result,
                   log.systick, Zeros(16));
    e.(digest := DigestOf(hash, e, log.previousDigest))
  }

  /** A 16-bit increment that skips zero. */
  function After(number: u16): u16 {
    if number == LAST_NUMBER then 1 else number + 1
  }

  predicate Full(capacity: byte, log: Log) {
    |log.entries| >= capacity
  }

  function Append(hash: Hash, capacity: byte, log: Log, f: Fact): Log {
    if Full(capacity, log) then log
    else
      var e := NextEntry(hash, log, f);
      log.(entries := log.entries + [e], nextNumber := After(log.nextNumber),
           systick := (log.systick + 1) % 0x1_0000_0000, previousDigest := e.digest)
  }

  function Retain(entries: seq<Entry>, index: u16): seq<Entry> {
    if entries == [] then []
    else
      var kept := Retain(entries[..|entries| - 1], index);
      var last := entries[|entries| - 1];
      if last.number > index then kept + [last] else kept
  }

  function Trim(log: Log, index: u16): Log {
    log.(entries := Retain(log.entries, index))
  }

  function CountUnlogged(log: Log): Log {
    log.(unloggedAuthentication := if log.unloggedAuthentication == 0xffff then 0xffff else log.unloggedAuthentication + 1)
  }

  method RetainLoop(entries: seq<Entry>, index: u16) returns (kept: seq<Entry>)
    ensures kept == Retain(entries, index)
  {
    kept := [];
    for i := 0 to |entries|
      invariant kept == Retain(entries[..i], index)
    {
      assert entries[..i + 1][..i] == entries[..i];
      if entries[i].number > index {
        kept := kept + [entries[i]];
      }
    }
    assert entries[..|entries|] == entries;
  }

  // ----- runs

  datatype Op = Record(fact: Fact) | SetLogIndex(index: u16) | MissAuthentication | Wipe

  function Apply(hash: Hash, capacity: byte, log: Log, op: Op): Log {
    match op
    case Record(f) => Append(hash, capacity, log, f)
    case SetLogIndex(i) => Trim(log, i)
    case MissAuthentication => CountUnlogged(log)
    case Wipe => EMPTY_LOG
  }

  function ApplyAll(hash: Hash, capacity: byte, log: Log, ops: seq<Op>): Log
    decreases |ops|
  {
    if ops == [] then log else ApplyAll(hash, capacity, Apply(hash, capacity, log, ops[0]), ops[1..])
  }

  /** The log together with everything appended since it was last wiped. */
  datatype Chronicle = Chronicle(log: Log, history: seq<Entry>)

  function Advance(hash: Hash, capacity: byte, c: Chronicle, op: Op): Chronicle {
    var log := Apply(hash, capacity, c.log, op);
    match op
    case Record(f) =>
      Chronicle(log, if Full(capacity, c.log) then c.history else c.history + [NextEntry(hash, c.log, f)])
    case Wipe => Chronicle(log, [])
    case _ => Chronicle(log, c.history)
  }

  function AdvanceAll(hash: Hash, capacity: byte, c: Chronicle, ops: seq<Op>): Chronicle
    decreases |ops|
  {
    if ops == [] then c else AdvanceAll(hash, capacity, Advance(hash, capacity, c, ops[0]), ops[1..])
  }

  /** The digest that the next entry after `history` is chained to. */
  function LastDigest(history: seq<Entry>): Digest {
    if history == [] then Zeros(16) else history[|history| - 1].digest
  }

  /** Each entry's digest covers its own first sixteen bytes and the digest appended before it. */
  ghost predicate Linked(hash: Hash, history: seq<Entry>) {
    history == [] ||
    var init, last := history[..|history| - 1], history[|history| - 1];
    Linked(hash, init) && last.digest == DigestOf(hash, last, LastDigest(init))
  }

  lemma {:induction false} LinkedAt(hash: Hash, history: seq<Entry>, i: nat)
    requires Linked(hash, history) && i < |history|
    ensures history[i].digest == DigestOf(hash, history[i], LastDigest(history[..i]))
    decreases |history|
  {
    if i < |history| - 1 {
      LinkedAt(hash, history[..|history| - 1], i);
      assert history[..|history| - 1][..i] == history[..i];
    }
  }

  function NumberAt(i: nat): u16 {
    i % LAST_NUMBER + 1
  }

  ghost predicate Numbered(history: seq<Entry>) {
    forall i :: 0 <= i < |history| ==> history[i].number == NumberAt(i)
  }

  predicate Subsequence(a: seq<Entry>, b: seq<Entry>)
    decreases |b|
  {
    if a == [] then true
    else if b == [] then false
    else
      || (a[|a| - 1] == b[|b| - 1] && Subsequence(a[..|a| - 1], b[..|b| - 1]))
      || Subsequence(a, b[..|b| - 1])
  }

  predicate IsSuffix(a: seq<Entry>, b: seq<Entry>) {
    |a| <= |b| && a == b[|b| - |a|..]
  }

  /** The counters and the chain agree with everything appended. */
  ghost predicate ChainConsistent(hash: Hash, log: Log, history: seq<Entry>) {
    && Linked(hash, history)
    && Numbered(history)
    && log.previousDigest == LastDigest(history)
    && log.nextNumber == NumberAt(|history|)
    && log.systick == |history| % 0x1_0000_0000
  }

  /** The surviving entries come from what was appended, in order. */
  ghost predicate SurvivorsConsistent(entries: seq<Entry>, history: seq<Entry>) {
    && Subsequence(entries, history)
    && Numbered(history)
    && (|history| <= LAST_NUMBER ==> IsSuffix(entries, history))
  }

  ghost predicate Consistent(hash: Hash, capacity: byte, c: Chronicle) {
    && |c.log.entries| <= capacity
    && ChainConsistent(hash, c.log, c.history)
    && SurvivorsConsistent(c.log.entries, c.history)
  }

  // ----- subsequences and suffixes under the two operations

  lemma SubsequenceAppend(a: seq<Entry>, b: seq<Entry>, e: Entry)
    requires Subsequence(a, b)
    ensures Subsequence(a + [e], b + [e])
  {
    assert (a + [e])[..|a|] == a && (b + [e])[..|b|] == b;
  }

  lemma {:induction false} SubsequenceRetain(a: seq<Entry>, b: seq<Entry>, index: u16)
    requires Subsequence(a, b)
    ensures Subsequence(Retain(a, index), b)
    decreases |b|
  {
    if a != [] {
      var a', b' := a[..|a| - 1], b[..|b| - 1];
      if a[|a| - 1] == b[|b| - 1] && Subsequence(a', b') {
        SubsequenceRetain(a', b', index);
        RetainMatched(Retain(a', index), a, b, index);
      } else {
        SubsequenceRetain(a, b', index);
        SubsequenceWeaken(Retain(a, index), b);
      }
    }
  }

  lemma RetainMatched(kept: seq<Entry>, a: seq<Entry>, b: seq<Entry>, index: u16)
    requires a != [] && b != [] && a[|a| - 1] == b[|b| - 1]
    requires kept == Retain(a[..|a| - 1], index) && Subsequence(kept, b[..|b| - 1])
    ensures Subsequence(Retain(a, index), b)
  {
    var last, b' := b[|b| - 1], b[..|b| - 1];
    if last.number > index {
      SubsequenceAppend(kept, b', last);
      assert b' + [last] == b;
    } else {
      SubsequenceWeaken(kept, b);
    }
  }

  lemma SubsequenceWeaken(a: seq<Entry>, b: seq<Entry>)
    requires b != [] && Subsequence(a, b[..|b| - 1])
    ensures Subsequence(a, b)
  {
  }

  predicate Increasing(entries: seq<Entry>) {
    forall i, j :: 0 <= i < j < |entries| ==> entries[i].number < entries[j].number
  }

  predicate Ascending(entries: seq<Entry>) {
    forall i, j :: 0 <= i < j < |entries| ==> entries[i].number <= entries[j].number
  }

  lemma AscendingParts(entries: seq<Entry>)
    requires Ascending(entries) && entries != []
    ensures Ascending(entries[..|entries| - 1])
    ensures
      var init := entries[..|entries| - 1];
      forall i :: 0 <= i < |init| ==> init[i].number <= entries[|entries| - 1].number
  {
  }

  lemma SuffixExtends(a: seq<Entry>, init: seq<Entry>, last: Entry)
    requires IsSuffix(a, init)
    ensures IsSuffix(a + [last], init + [last])
  {
    assert (init + [last])[|init| - |a|..] == init[|init| - |a|..] + [last];
  }

  /** Dropping low numbers from an ascending list drops a prefix. */
  lemma {:induction false} RetainAscending(entries: seq<Entry>, index: u16)
    requires Ascending(entries)
    ensures IsSuffix(Retain(entries, index), entries)
    decreases |entries|
  {
    if entries != [] {
      var init, last := entries[..|entries| - 1], entries[|entries| - 1];
      AscendingParts(entries);
      assert entries == init + [last];
      if last.number > index {
        RetainAscending(init, index);
        SuffixExtends(Retain(init, index), init, last);
      } else {
        RetainNone(init, index);
      }
    }
  }

  lemma {:induction false} RetainNone(entries: seq<Entry>, index: u16)
    requires forall i :: 0 <= i < |entries| ==> entries[i].number <= index
    ensures Retain(entries, index) == []
    decreases |entries|
  {
    if entries != [] {
      RetainNone(entries[..|entries| - 1], index);
    }
  }

  lemma RetainLength(entries: seq<Entry>, index: u16)
    ensures |Retain(entries, index)| <= |entries|
  {
  }

  lemma EarlyNumbers(i: nat)
    requires i < LAST_NUMBER
    ensures NumberAt(i) == i + 1
  {
  }

  lemma SuffixIncreasing(entries: seq<Entry>, history: seq<Entry>)
    requires Numbered(history) && |history| <= LAST_NUMBER && IsSuffix(entries, history)
    ensures Increasing(entries)
  {
    var k := |history| - |entries|;
    forall i, j | 0 <= i < j < |entries|
      ensures entries[i].number < entries[j].number
    {
      EarlyNumbers(k + i);
      EarlyNumbers(k + j);
      assert entries[i] == history[k + i] && entries[j] == history[k + j];
    }
  }

  lemma SuffixOfSuffix(a: seq<Entry>, b: seq<Entry>, c: seq<Entry>)
    requires IsSuffix(a, b) && IsSuffix(b, c)
    ensures IsSuffix(a, c)
  {
  }

  lemma NumbersAdvance(n: nat)
    ensures After(NumberAt(n)) == NumberAt(n + 1)
  {
    var q, r := n / LAST_NUMBER, n % LAST_NUMBER;
    assert n == q * LAST_NUMBER + r;
    if r + 1 == LAST_NUMBER {
      assert n + 1 == (q + 1) * LAST_NUMBER;
      assert (n + 1) % LAST_NUMBER == 0;
    } else {
      assert n + 1 == q * LAST_NUMBER + (r + 1);
      assert (n + 1) % LAST_NUMBER == r + 1;
    }
  }

  // ----- every run keeps the chronicle consistent

  lemma ChainAppend(hash: Hash, log: Log, history: seq<Entry>, f: Fact)
    requires ChainConsistent(hash, log, history)
    ensures
      var e := NextEntry(hash, log, f);
      ChainConsistent(hash,
                      log.(entries := log.entries + [e], nextNumber := After(log.nextNumber),
                           systick := (log.systick + 1) % 0x1_0000_0000, previousDigest := e.digest),
                      history + [e])
  {
    var e := NextEntry(hash, log, f);
    assert (history + [e])[..|history|] == history;
    DigestOfNext(hash, log, f);
    NumbersAdvance(|history|);
    TickAdvances(|history|);
  }

  lemma DigestOfNext(hash: Hash, log: Log, f: Fact)
    ensures var e := NextEntry(hash, log, f);
            e.digest == DigestOf(hash, e, log.previousDigest)
  {
    var e := NextEntry(hash, log, f);
    assert Covered(e) == Covered(e.(digest := Zeros(16)));
  }

  lemma SurvivorsAppend(entries: seq<Entry>, history: seq<Entry>, e: Entry)
    requires SurvivorsConsistent(entries, history) && e.number == NumberAt(|history|)
    ensures SurvivorsConsistent(entries + [e], history + [e])
  {
    SubsequenceAppend(entries, history, e);
    if |history| < LAST_NUMBER {
      SuffixAppend(entries, history, e);
    }
  }

  lemma RecordConsistent(hash: Hash, capacity: byte, c: Chronicle, f: Fact)
    requires Consistent(hash, capacity, c)
    ensures Consistent(hash, capacity, Advance(hash, capacity, c, Record(f)))
  {
    if !Full(capacity, c.log) {
      ChainAppend(hash, c.log, c.history, f);
      SurvivorsAppend(c.log.entries, c.history, NextEntry(hash, c.log, f));
    }
  }

  lemma TickAdvances(n: nat)
    ensures (n % 0x1_0000_0000 + 1) % 0x1_0000_0000 == (n + 1) % 0x1_0000_0000
  {
  }

  lemma SuffixAppend(a: seq<Entry>, b: seq<Entry>, e: Entry)
    requires IsSuffix(a, b)
    ensures IsSuffix(a + [e], b + [e])
  {
  }

  lemma SurvivorsTrim(entries: seq<Entry>, history: seq<Entry>, index: u16)
    requires SurvivorsConsistent(entries, history)
    ensures SurvivorsConsistent(Retain(entries, index), history)
  {
    SubsequenceRetain(entries, history, index);
    if |history| <= LAST_NUMBER {
      SuffixIncreasing(entries, history);
      RetainAscending(entries, index);
      SuffixOfSuffix(Retain(entries, index), entries, history);
    }
  }

  lemma TrimConsistent(hash: Hash, capacity: byte, c: Chronicle, index: u16)
    requires Consistent(hash, capacity, c)
    ensures Consistent(hash, capacity, Advance(hash, capacity, c, SetLogIndex(index)))
  {
    SurvivorsTrim(c.log.entries, c.history, index);
    RetainLength(c.log.entries, index);
  }

  lemma AdvanceConsistent(hash: Hash, capacity: byte, c: Chronicle, op: Op)
    requires Consistent(hash, capacity, c)
    ensures Consistent(hash, capacity, Advance(hash, capacity, c, op))
  {
    match op
    case Record(f) => RecordConsistent(hash, capacity, c, f);
    case SetLogIndex(i) => TrimConsistent(hash, capacity, c, i);
    case MissAuthentication =>
    case Wipe =>
  }

  /** From an empty log, any mix of operations leaves a chained subsequence of what was
      appended, and a suffix of it until the numbers wrap. */
  lemma {:induction false} RunConsistent(hash: Hash, capacity: byte, c: Chronicle, ops: seq<Op>)
    requires Consistent(hash, capacity, c)
    ensures Consistent(hash, capacity, AdvanceAll(hash, capacity, c, ops))
    ensures AdvanceAll(hash, capacity, c, ops).log == ApplyAll(hash, capacity, c.log, ops)
    decreases |ops|
  {
    if ops != [] {
      AdvanceConsistent(hash, capacity, c, ops[0]);
      RunConsistent(hash, capacity, Advance(hash, capacity, c, ops[0]), ops[1..]);
    }
  }

  lemma EmptyConsistent(hash: Hash, capacity: byte)
    ensures Consistent(hash, capacity, Chronicle(EMPTY_LOG, []))
  {
  }

  /** The history after one request, as the logs before and after it tell it: what a wipe leaves,
      or one entry more when the next number has moved. */
  function HistoryAfter(history: seq<Entry>, wiped: bool, before: Log, after: Log): seq<Entry> {
    if wiped then after.entries
    else if after.nextNumber != before.nextNumber && after.entries != [] then
      history + [after.entries[|after.entries| - 1]]
    else history
  }

  /** What one request may do to the log: one operation, or a record after another kind. */
  predicate RequestOps(ops: seq<Op>, wiped: bool) {
    && |ops| <= 2
    && (|ops| == 2 ==> !ops[0].Record? && ops[1].Record?)
    && (wiped <==> ops != [] && ops[0].Wipe?)
  }

  lemma RequestHistory(hash: Hash, capacity: byte, c: Chronicle, ops: seq<Op>, wiped: bool)
    requires RequestOps(ops, wiped)
    ensures
      var after := AdvanceAll(hash, capacity, c, ops);
      after.history == HistoryAfter(c.history, wiped, c.log, after.log)
  {
    if |ops| == 2 {
      var one := Advance(hash, capacity, c, ops[0]);
      assert ops == [ops[0], ops[1]] + [];
      AdvanceTwice(hash, capacity, c, ops[0], ops[1], []);
      assert AdvanceAll(hash, capacity, c, ops) == Advance(hash, capacity, one, ops[1]);
      assert !wiped ==> one.history == c.history && one.log.nextNumber == c.log.nextNumber;
    } else if |ops| == 1 {
      assert AdvanceAll(hash, capacity, c, ops) == Advance(hash, capacity, c, ops[0]);
    }
  }

  /** An auditor holding only the surviving entries can check the chain between them,
      and the newest one carries the device's current digest. */
  lemma SurvivorsVerify(hash: Hash, capacity: byte, c: Chronicle)
    requires Consistent(hash, capacity, c) && |c.history| <= LAST_NUMBER && c.log.entries != []
    ensures forall i :: 0 < i < |c.log.entries| ==>
              c.log.entries[i].digest == DigestOf(hash, c.log.entries[i], c.log.entries[i - 1].digest)
    ensures c.log.entries[|c.log.entries| - 1].digest == c.log.previousDigest
    ensures Increasing(c.log.entries)
  {
    var k := |c.history| - |c.log.entries|;
    SuffixIncreasing(c.log.entries, c.history);
    forall i | 0 < i < |c.log.entries|
      ensures c.log.entries[i].digest == DigestOf(hash, c.log.entries[i], c.log.entries[i - 1].digest)
    {
      LinkedAt(hash, c.history, k + i);
      assert c.log.entries[i] == c.history[k + i] && c.log.entries[i - 1] == c.history[..k + i][k + i - 1];
    }
  }

  // ----- exactly when trimming drops only the oldest entries

  lemma {:induction false} RetainMembers(entries: seq<Entry>, index: u16, e: Entry)
    ensures e in Retain(entries, index) <==> e in entries && e.number > index
    decreases |entries|
  {
    if entries != [] {
      var init, last := entries[..|entries| - 1], entries[|entries| - 1];
      RetainMembers(init, index, e);
      assert entries == init + [last];
    }
  }

  lemma SuffixLast(a: seq<Entry>, b: seq<Entry>)
    requires IsSuffix(a, b) && a != []
    ensures b[|b| - 1] in a
  {
    assert a[|a| - 1] == b[|b| - 1];
  }

  /** When what is kept is a suffix, nothing before a dropped entry is kept. */
  lemma {:induction false} SuffixDropsOlder(entries: seq<Entry>, index: u16, i: nat, j: nat)
    requires IsSuffix(Retain(entries, index), entries)
    requires i < j < |entries| && entries[j].number <= index
    ensures entries[i].number <= index
    decreases |entries|
  {
    var n := |entries| - 1;
    var init, kept := entries[..n], Retain(entries, index);
    if entries[n].number > index {
      var before := Retain(init, index);
      assert kept == before + [entries[n]];
      assert before == init[|init| - |before|..];
      SuffixDropsOlder(init, index, i, j);
    } else {
      RetainMembers(entries, index, entries[n]);
      RetainMembers(entries, index, entries[i]);
      if kept != [] {
        SuffixLast(kept, entries);
      }
    }
  }

  /** Trimming leaves a suffix, whatever the index, if and only if the numbers do not fall
      anywhere in the log. */
  lemma PrefixExactly(log: Log)
    ensures (forall index: u16 :: IsSuffix(Trim(log, index).entries, log.entries)) <==> Ascending(log.entries)
  {
    var entries := log.entries;
    if Ascending(entries) {
      forall index: u16
        ensures IsSuffix(Trim(log, index).entries, entries)
      {
        RetainAscending(entries, index);
      }
    } else {
      var i, j :| 0 <= i < j < |entries| && entries[i].number > entries[j].number;
      var index := entries[j].number;
      if IsSuffix(Trim(log, index).entries, entries) {
        SuffixDropsOlder(entries, index, i, j);
      }
    }
  }

  /** Appending an entry and trimming it away, `n` times over. */
  function Churn(fact: Fact, n: nat): seq<Op> {
    if n == 0 then [] else [Record(fact), SetLogIndex(LAST_NUMBER)] + Churn(fact, n - 1)
  }

  lemma {:induction false} AdvanceAppend(hash: Hash, capacity: byte, c: Chronicle, a: seq<Op>, b: seq<Op>)
    ensures AdvanceAll(hash, capacity, c, a + b) == AdvanceAll(hash, capacity, AdvanceAll(hash, capacity, c, a), b)
    decreases |a|
  {
    if a == [] {
      assert a + b == b;
    } else {
      assert (a + b)[1..] == a[1..] + b;
      AdvanceAppend(hash, capacity, Advance(hash, capacity, c, a[0]), a[1..], b);
    }
  }

  lemma ChurnOnce(hash: Hash, capacity: byte, c: Chronicle, fact: Fact)
    requires capacity > 0 && c.log.entries == []
    ensures
      var after := Advance(hash, capacity, Advance(hash, capacity, c, Record(fact)), SetLogIndex(LAST_NUMBER));
      after.log.entries == [] && |after.history| == |c.history| + 1
  {
    RetainNone(Advance(hash, capacity, c, Record(fact)).log.entries, LAST_NUMBER);
  }

  lemma AdvanceTwice(hash: Hash, capacity: byte, c: Chronicle, a: Op, b: Op, rest: seq<Op>)
    ensures AdvanceAll(hash, capacity, c, [a, b] + rest)
            == AdvanceAll(hash, capacity, Advance(hash, capacity, Advance(hash, capacity, c, a), b), rest)
  {
    assert ([a, b] + rest)[1..] == [b] + rest && ([b] + rest)[1..] == rest;
  }

  lemma {:induction false} ChurnEmpties(hash: Hash, capacity: byte, c: Chronicle, fact: Fact, n: nat)
    requires capacity > 0 && c.log.entries == []
    ensures
      var after := AdvanceAll(hash, capacity, c, Churn(fact, n));
      after.log.entries == [] && |after.history| == |c.history| + n
    decreases n
  {
    if n > 0 {
      ChurnOnce(hash, capacity, c, fact);
      AdvanceTwice(hash, capacity, c, Record(fact), SetLogIndex(LAST_NUMBER), Churn(fact, n - 1));
      ChurnEmpties(hash, capacity, Advance(hash, capacity, Advance(hash, capacity, c, Record(fact)), SetLogIndex(LAST_NUMBER)),
                   fact, n - 1);
    }
  }

  /** Where churning from the empty log leads. */
  lemma ChurnedNumber(hash: Hash, capacity: byte, fact: Fact, n: nat)
    requires 0 < capacity && n < LAST_NUMBER
    ensures
      var after := AdvanceAll(hash, capacity, Chronicle(EMPTY_LOG, []), Churn(fact, n));
      after.log.entries == [] && after.log.nextNumber == n + 1
  {
    var start := Chronicle(EMPTY_LOG, []);
    EmptyConsistent(hash, capacity);
    RunConsistent(hash, capacity, start, Churn(fact, n));
    ChurnEmpties(hash, capacity, start, fact, n);
    EarlyNumbers(n);
  }

  /** Two records into an empty log. */
  lemma RecordTwice(hash: Hash, capacity: byte, c: Chronicle, fact: Fact)
    requires capacity >= 2 && c.log.entries == []
    ensures
      var after := AdvanceAll(hash, capacity, c, [Record(fact), Record(fact)]);
      && |after.log.entries| == 2
      && after.log.entries[0].number == c.log.nextNumber
      && after.log.entries[1].number == After(c.log.nextNumber)
  {
    var one := Advance(hash, capacity, c, Record(fact));
    assert [Record(fact), Record(fact)][1..] == [Record(fact)];
    assert AdvanceAll(hash, capacity, one, [Record(fact)]) == Advance(hash, capacity, one, Record(fact));
  }

  /** Appends and trims that reach a log whose numbers wrap: with room for two entries, 65534
      times an entry appended and trimmed, and then two more. */
  function WrapOps(fact: Fact): seq<Op> {
    Churn(fact, LAST_NUMBER - 1) + [Record(fact), Record(fact)]
  }

  lemma ChurnWraps(hash: Hash, capacity: byte, fact: Fact, n: nat)
    requires capacity >= 2 && n + 1 == LAST_NUMBER
    ensures
      var after := AdvanceAll(hash, capacity, Chronicle(EMPTY_LOG, []), Churn(fact, n) + [Record(fact), Record(fact)]);
      |after.log.entries| == 2 && after.log.entries[0].number == LAST_NUMBER && after.log.entries[1].number == 1
  {
    var start := Chronicle(EMPTY_LOG, []);
    ChurnedNumber(hash, capacity, fact, n);
    AdvanceAppend(hash, capacity, start, Churn(fact, n), [Record(fact), Record(fact)]);
    RecordTwice(hash, capacity, AdvanceAll(hash, capacity, start, Churn(fact, n)), fact);
  }

  /** From the empty log, those operations reach a log where index 1 drops the newest entry and
      keeps the one before it, so what is left is no suffix. */
  lemma WrapKeepsOlderEntry(hash: Hash, capacity: byte, fact: Fact)
    requires capacity >= 2
    ensures
      var log := ApplyAll(hash, capacity, EMPTY_LOG, WrapOps(fact));
      && |log.entries| == 2
      && Trim(log, 1).entries == [log.entries[0]]
      && !IsSuffix(Trim(log, 1).entries, log.entries)
  {
    var start := Chronicle(EMPTY_LOG, []);
    ChurnWraps(hash, capacity, fact, LAST_NUMBER - 1);
    EmptyConsistent(hash, capacity);
    RunConsistent(hash, capacity, start, WrapOps(fact));
    KeepsFirst(ApplyAll(hash, capacity, EMPTY_LOG, WrapOps(fact)));
  }

  lemma KeepsFirst(log: Log)
    requires |log.entries| == 2 && log.entries[0].number == LAST_NUMBER && log.entries[1].number == 1
    ensures Trim(log, 1).entries == [log.entries[0]] && !IsSuffix(Trim(log, 1).entries, log.entries)
  {
    var a := log.entries[0];
    assert log.entries[..1] == [a] && [a][..0] == [];
    assert Retain([a], 1) == [a];
  }
}
