/** Framing of responses on the USB bulk IN endpoint (USB 2.0, section 5.8.3). */
module UsbFraming {
  import opened Bytes

  const MAX_PACKET_SIZE := 64

  /** What one transfer of `data` puts on the bus: full packets and a last one. */
  function Packets(data: bytes): seq<bytes> {
    if |data| <= MAX_PACKET_SIZE then [data]
    else [data[..MAX_PACKET_SIZE]] + Packets(data[MAX_PACKET_SIZE..])
  }

  predicate NeedsTerminator(response: bytes) {
    response != [] && |response| % MAX_PACKET_SIZE == 0
  }

  function ResponsePackets(response: bytes): seq<bytes> {
    Packets(response) + if NeedsTerminator(response) then Packets([]) else []
  }

  function StreamPackets(responses: seq<bytes>): seq<bytes> {
    if responses == [] then []
    else ResponsePackets(responses[0]) + StreamPackets(responses[1..])
  }

  // ----- writes that may fail

  /** What the operating system answers to one attempt to write. */
  datatype Attempt = Accepted(length: nat) | Interrupted | Unavailable | Broken

  datatype Outcome = Sent | Skipped | Failed

  datatype Transferred = Transferred(rest: seq<Attempt>, packets: seq<bytes>, outcome: Outcome)

  /** One transfer against the attempts to come; when none is listed, the write is accepted. An
      interrupted write is repeated, and an unavailable endpoint swallows it. */
  function Transfer(attempts: seq<Attempt>, data: bytes): Transferred
    decreases |attempts|
  {
    if attempts == [] then Transferred([], Packets(data), Sent)
    else
      var rest := attempts[1..];
      match attempts[0]
      case Interrupted => Transfer(rest, data)
      case Unavailable => Transferred(rest, [], Skipped)
      case Broken => Transferred(rest, [], Failed)
      case Accepted(n) =>
        if n == |data| then Transferred(rest, Packets(data), Sent)
        else Transferred(rest, if n < |data| then Packets(data[..n]) else [], Failed)
  }

  function Respond(attempts: seq<Attempt>, response: bytes): Transferred {
    var first := Transfer(attempts, response);
    if first.outcome.Failed? || !NeedsTerminator(response) then first
    else
      var second := Transfer(first.rest, []);
      Transferred(second.rest, first.packets + second.packets, if second.outcome.Failed? then Failed else first.outcome)
  }

  /** Responses are served until a write fails. */
  function Serve(attempts: seq<Attempt>, responses: seq<bytes>): Transferred
    decreases |responses|
  {
    if responses == [] then Transferred(attempts, [], Sent)
    else
      var one := Respond(attempts, responses[0]);
      if one.outcome.Failed? then one
      else
        var more := Serve(one.rest, responses[1..]);
        Transferred(more.rest, one.packets + more.packets, more.outcome)
  }

  class Endpoint {
    var packets: seq<bytes>
    var attempts: seq<Attempt>

    constructor (attempts: seq<Attempt>)
      ensures packets == [] && this.attempts == attempts
    {
      packets, this.attempts := [], attempts;
    }

    /** The controller cuts an accepted transfer into packets. */
    method Send(data: bytes)
      modifies this`packets
      ensures packets == old(packets) + Packets(data)
    {
      var i := 0;
      while |data| - i > MAX_PACKET_SIZE
        invariant 0 <= i <= |data|
        invariant packets + Packets(data[i..]) == old(packets) + Packets(data)
      {
        assert data[i..][..MAX_PACKET_SIZE] == data[i..i + MAX_PACKET_SIZE];
        assert data[i..][MAX_PACKET_SIZE..] == data[i + MAX_PACKET_SIZE..];
        packets := packets + [data[i..i + MAX_PACKET_SIZE]];
        i := i + MAX_PACKET_SIZE;
      }
      packets := packets + [data[i..]];
    }

    method WriteTransfer(data: bytes) returns (outcome: Outcome)
      modifies this
      ensures
        var t := Transfer(old(attempts), data);
        packets == old(packets) + t.packets && attempts == t.rest && outcome == t.outcome
    {
      while attempts != [] && attempts[0].Interrupted?
        invariant packets == old(packets)
        invariant Transfer(attempts, data) == Transfer(old(attempts), data)
        decreases |attempts|
      {
        attempts := attempts[1..];
      }
      if attempts == [] {
        Send(data);
        return Sent;
      }
      var attempt := attempts[0];
      attempts := attempts[1..];
      match attempt
      case Accepted(n) =>
        if n == |data| {
          Send(data);
          outcome := Sent;
        } else {
          if n < |data| {
            Send(data[..n]);
          }
          outcome := Failed;
        }
      case Unavailable => outcome := Skipped;
      case Broken => outcome := Failed;
    }

    method WriteResponse(response: bytes) returns (outcome: Outcome)
      modifies this
      ensures
        var t := Respond(old(attempts), response);
        packets == old(packets) + t.packets && attempts == t.rest && outcome == t.outcome
    {
      outcome := WriteTransfer(response);
      if !outcome.Failed? && response != [] && |response| % MAX_PACKET_SIZE == 0 {
        var terminator := WriteTransfer([]);
        if terminator.Failed? {
          outcome := Failed;
        }
      }
    }

    method ServeResponses(responses: seq<bytes>) returns (outcome: Outcome)
      modifies this
      ensures
        var t := Serve(old(attempts), responses);
        packets == old(packets) + t.packets && attempts == t.rest && outcome == t.outcome
    {
      outcome := Sent;
      ghost var all := Serve(attempts, responses);
      for i := 0 to |responses|
        invariant outcome == Sent
        invariant
          var t := Serve(attempts, responses[i..]);
          packets + t.packets == old(packets) + all.packets && t.rest == all.rest && t.outcome == all.outcome
      {
        assert responses[i..][1..] == responses[i + 1..];
        outcome := WriteResponse(responses[i]);
        if outcome.Failed? {
          return;
        }
        outcome := Sent;
      }
    }
  }

  /** The host reads until a short packet; `pending` holds what it has so far. */
  datatype HostState = HostState(done: seq<bytes>, pending: bytes)

  function HostReads(packets: seq<bytes>, host: HostState): HostState {
    if packets == [] then host
    else
      var whole := host.pending + packets[0];
      HostReads(packets[1..],
                if |packets[0]| < MAX_PACKET_SIZE then HostState(host.done + [whole], [])
                else HostState(host.done, whole))
  }

  lemma {:induction false} HostReadsAppend(a: seq<bytes>, b: seq<bytes>, host: HostState)
    ensures HostReads(a + b, host) == HostReads(b, HostReads(a, host))
    decreases |a|
  {
    if a == [] {
      assert a + b == b;
    } else {
      assert (a + b)[1..] == a[1..] + b;
      var whole := host.pending + a[0];
      HostReadsAppend(a[1..], b,
                      if |a[0]| < MAX_PACKET_SIZE then HostState(host.done + [whole], [])
                      else HostState(host.done, whole));
    }
  }

  lemma TailTerminator(data: bytes)
    requires |data| > MAX_PACKET_SIZE
    ensures NeedsTerminator(data[MAX_PACKET_SIZE..]) <==> NeedsTerminator(data)
  {
    var n := |data| - MAX_PACKET_SIZE;
    assert |data| % MAX_PACKET_SIZE == n % MAX_PACKET_SIZE;
  }

  lemma HostReadsOne(packet: bytes, host: HostState)
    ensures HostReads([packet], host)
            == if |packet| < MAX_PACKET_SIZE then HostState(host.done + [host.pending + packet], [])
               else HostState(host.done, host.pending + packet)
  {
    assert [packet][1..] == [];
  }

  lemma HostReadsFull(packet: bytes, rest: seq<bytes>, host: HostState)
    requires |packet| == MAX_PACKET_SIZE
    ensures HostReads([packet] + rest, host) == HostReads(rest, HostState(host.done, host.pending + packet))
  {
    assert ([packet] + rest)[1..] == rest;
  }

  /** A transfer ends a response by itself unless it fills its last packet. */
  lemma {:induction false} HostReadsTransfer(data: bytes, host: HostState)
    ensures HostReads(Packets(data), host)
            == if NeedsTerminator(data) then HostState(host.done, host.pending + data)
               else HostState(host.done + [host.pending + data], [])
    decreases |data|
  {
    if |data| <= MAX_PACKET_SIZE {
      HostReadsOne(data, host);
    } else {
      var head, tail := data[..MAX_PACKET_SIZE], data[MAX_PACKET_SIZE..];
      HostReadsFull(head, Packets(tail), host);
      HostReadsTransfer(tail, HostState(host.done, host.pending + head));
      assert host.pending + head + tail == host.pending + data;
      TailTerminator(data);
    }
  }

  lemma HostReadsResponse(response: bytes, host: HostState)
    requires host.pending == []
    ensures HostReads(ResponsePackets(response), host) == HostState(host.done + [response], [])
  {
    HostReadsTransfer(response, host);
    assert [] + response == response;
    if NeedsTerminator(response) {
      HostReadsAppend(Packets(response), Packets([]), host);
      HostReadsTransfer([], HostState(host.done, response));
      assert response + [] == response;
    } else {
      assert ResponsePackets(response) == Packets(response);
    }
  }

  lemma {:induction false} HostReadsStream(responses: seq<bytes>, host: HostState)
    requires host.pending == []
    ensures HostReads(StreamPackets(responses), host) == HostState(host.done + responses, [])
    decreases |responses|
  {
    if responses == [] {
      assert host.done + responses == host.done;
    } else {
      HostReadsResponse(responses[0], host);
      HostReadsAppend(ResponsePackets(responses[0]), StreamPackets(responses[1..]), host);
      HostReadsStream(responses[1..], HostState(host.done + [responses[0]], []));
      assert host.done + [responses[0]] + responses[1..] == host.done + responses;
    }
  }

  /** The host gets back the very list of responses, empty ones included. */
  lemma FramingRoundTrip(responses: seq<bytes>)
    ensures HostReads(StreamPackets(responses), HostState([], [])) == HostState(responses, [])
  {
    HostReadsStream(responses, HostState([], []));
    assert [] + responses == responses;
  }

  /** The terminator is needed exactly where the code writes it: without it the
      host still waits after the response if and only if `NeedsTerminator`. */
  lemma TerminatorNeededExactly(response: bytes)
    ensures HostReads(Packets(response), HostState([], [])) == HostState([response], [])
            <==> !NeedsTerminator(response)
  {
    HostReadsTransfer(response, HostState([], []));
    assert [] + response == response;
  }

  // ----- exactly when the host gets what was accepted

  /** What became of a response: all of it written, none of it, all but its terminator, or its
      terminator alone. */
  datatype Fate = Whole | Lost | Unterminated | Stray

  function FatePackets(response: bytes, fate: Fate): seq<bytes> {
    match fate
    case Whole => ResponsePackets(response)
    case Lost => []
    case Unterminated => Packets(response)
    case Stray => Packets([])
  }

  function FatesPackets(responses: seq<bytes>, fates: seq<Fate>): seq<bytes>
    requires |responses| == |fates|
  {
    if responses == [] then [] else FatePackets(responses[0], fates[0]) + FatesPackets(responses[1..], fates[1..])
  }

  /** The responses whose data the endpoint accepted. */
  function AcceptedOf(responses: seq<bytes>, fates: seq<Fate>): seq<bytes>
    requires |responses| == |fates|
  {
    if responses == [] then []
    else
      (if fates[0].Whole? || fates[0].Unterminated? then [responses[0]] else [])
      + AcceptedOf(responses[1..], fates[1..])
  }

  /** Only a response that needs a terminator can lack it. */
  predicate Fated(responses: seq<bytes>, fates: seq<Fate>) {
    && |responses| == |fates|
    && forall i :: 0 <= i < |fates| && fates[i].Unterminated? ==> NeedsTerminator(responses[i])
  }

  function FateOf(attempts: seq<Attempt>, response: bytes): Fate {
    var first := Transfer(attempts, response);
    var second := if NeedsTerminator(response) then Transfer(first.rest, []).outcome else first.outcome;
    if first.outcome.Sent? then (if second.Sent? then Whole else Unterminated)
    else if second.Sent? then Stray else Lost
  }

  function FatesOf(attempts: seq<Attempt>, responses: seq<bytes>): (fates: seq<Fate>)
    ensures |fates| == |responses|
    decreases |responses|
  {
    if responses == [] then []
    else [FateOf(attempts, responses[0])] + FatesOf(Respond(attempts, responses[0]).rest, responses[1..])
  }

  /** Serving without a failure puts on the bus what the fates of the responses say. */
  lemma {:induction false} ServedByFate(attempts: seq<Attempt>, responses: seq<bytes>)
    requires !Serve(attempts, responses).outcome.Failed?
    ensures Fated(responses, FatesOf(attempts, responses))
    ensures Serve(attempts, responses).packets == FatesPackets(responses, FatesOf(attempts, responses))
    decreases |responses|
  {
    if responses != [] {
      var one := Respond(attempts, responses[0]);
      RespondedByFate(attempts, responses[0]);
      ServedByFate(one.rest, responses[1..]);
      var fates, later := FatesOf(attempts, responses), FatesOf(one.rest, responses[1..]);
      assert fates[1..] == later;
      forall i | 0 <= i < |fates| && fates[i].Unterminated?
        ensures NeedsTerminator(responses[i])
      {
        if i > 0 {
          assert later[i - 1].Unterminated?;
        }
      }
    }
  }

  lemma {:induction false} SkippedIsNothing(attempts: seq<Attempt>, data: bytes)
    ensures
      var t := Transfer(attempts, data);
      (t.outcome.Sent? ==> t.packets == Packets(data)) && (t.outcome.Skipped? ==> t.packets == [])
    decreases |attempts|
  {
    if attempts != [] && attempts[0].Interrupted? {
      SkippedIsNothing(attempts[1..], data);
    }
  }

  lemma RespondedByFate(attempts: seq<Attempt>, response: bytes)
    requires !Respond(attempts, response).outcome.Failed?
    ensures Respond(attempts, response).packets == FatePackets(response, FateOf(attempts, response))
    ensures FateOf(attempts, response).Unterminated? ==> NeedsTerminator(response)
  {
    SkippedIsNothing(attempts, response);
    SkippedIsNothing(Transfer(attempts, response).rest, []);
    assert Packets(response) + [] == Packets(response);
    assert [] + Packets([]) == Packets([]);
  }

  /** A terminator that is missing is made up for by a stray one before anything else is sent,
      and there is no other stray. */
  predicate Balanced(fates: seq<Fate>, missing: bool) {
    if fates == [] then !missing
    else
      match fates[0]
      case Lost => Balanced(fates[1..], missing)
      case Whole => !missing && Balanced(fates[1..], false)
      case Unterminated => !missing && Balanced(fates[1..], true)
      case Stray => missing && Balanced(fates[1..], false)
  }

  /** What the host has finished stays, and what it has begun only gets longer. */
  ghost predicate Grows(before: HostState, after: HostState) {
    var n := |before.done|;
    && |after.done| >= n && after.done[..n] == before.done
    && (if |after.done| > n then |after.done[n]| >= |before.pending| else |after.pending| >= |before.pending|)
  }

  lemma {:induction false} HostGrows(packets: seq<bytes>, host: HostState)
    ensures Grows(host, HostReads(packets, host))
    decreases |packets|
  {
    if packets != [] {
      var whole := host.pending + packets[0];
      HostGrows(packets[1..],
                if |packets[0]| < MAX_PACKET_SIZE then HostState(host.done + [whole], [])
                else HostState(host.done, whole));
    }
  }

  /** The host after one response. */
  lemma HostAfterFate(response: bytes, fate: Fate, host: HostState)
    requires fate.Unterminated? ==> NeedsTerminator(response)
    ensures
      HostReads(FatePackets(response, fate), host) ==
      match fate
      case Lost => host
      case Whole => HostState(host.done + [host.pending + response], [])
      case Unterminated => HostState(host.done, host.pending + response)
      case Stray => HostState(host.done + [host.pending], [])
  {
    HostReadsTransfer(response, host);
    HostReadsTransfer([], host);
    assert host.pending + [] == host.pending;
    if fate.Whole? && NeedsTerminator(response) {
      HostReadsAppend(Packets(response), Packets([]), host);
      HostReadsTransfer([], HostState(host.done, host.pending + response));
      assert host.pending + response + [] == host.pending + response;
    } else if fate.Whole? {
      assert ResponsePackets(response) == Packets(response);
    }
  }

  /** What the host ought to have in the end: what it has, what it has begun, and the rest. */
  function Due(host: HostState, responses: seq<bytes>, fates: seq<Fate>): HostState
    requires |responses| == |fates|
  {
    HostState(host.done + (if host.pending == [] then [] else [host.pending]) + AcceptedOf(responses, fates), [])
  }

  predicate NonEmpty(responses: seq<bytes>) {
    forall r | r in responses :: r != []
  }

  lemma FatedParts(responses: seq<bytes>, fates: seq<Fate>)
    requires Fated(responses, fates) && NonEmpty(responses) && responses != []
    ensures Fated(responses[1..], fates[1..]) && NonEmpty(responses[1..]) && responses[0] != []
    ensures fates[0].Unterminated? ==> NeedsTerminator(responses[0])
  {
    forall i | 0 <= i < |fates[1..]| && fates[1..][i].Unterminated?
      ensures NeedsTerminator(responses[1..][i])
    {
      assert fates[i + 1].Unterminated?;
    }
    assert responses[0] in responses;
    forall r | r in responses[1..]
      ensures r in responses
    {
    }
  }

  lemma {:induction false} GivenExactly(responses: seq<bytes>, fates: seq<Fate>, host: HostState)
    requires Fated(responses, fates) && NonEmpty(responses)
    ensures HostReads(FatesPackets(responses, fates), host) == Due(host, responses, fates)
            <==> Balanced(fates, host.pending != [])
    decreases |responses|
  {
    if responses != [] {
      var r, rest, later := responses[0], responses[1..], fates[1..];
      var next := HostReads(FatePackets(r, fates[0]), host);
      FatedParts(responses, fates);
      HostAfterFate(r, fates[0], host);
      HostReadsAppend(FatePackets(r, fates[0]), FatesPackets(rest, later), host);
      GivenExactly(rest, later, next);
      HostGrows(FatesPackets(rest, later), next);
      var last := HostReads(FatesPackets(rest, later), next);
      match fates[0]
      case Lost => assert [] + AcceptedOf(rest, later) == AcceptedOf(rest, later);
      case Stray => StrayDue(responses, fates, host, last);
      case Whole => WholeDue(responses, fates, host, last);
      case Unterminated => UnterminatedDue(responses, fates, host, last);
    }
  }

  /** A stray terminator finishes what is pending, or adds an empty response that nobody sent. */
  lemma StrayDue(responses: seq<bytes>, fates: seq<Fate>, host: HostState, last: HostState)
    requires |responses| == |fates| && NonEmpty(responses) && responses != [] && fates[0].Stray?
    requires Grows(HostState(host.done + [host.pending], []), last)
    ensures
      if host.pending == [] then last != Due(host, responses, fates)
      else Due(HostState(host.done + [host.pending], []), responses[1..], fates[1..]) == Due(host, responses, fates)
  {
    var accepted := AcceptedOf(responses[1..], fates[1..]);
    assert AcceptedOf(responses, fates) == accepted;
    if host.pending == [] {
      var n := |host.done|;
      AcceptedAreGiven(responses, fates);
      assert last.done[n] == last.done[..n + 1][n] == [];
      assert accepted != [] ==> Due(host, responses, fates).done[n] == accepted[0] && accepted[0] in accepted;
    } else {
      assert host.done + [host.pending] + [] + accepted == host.done + [host.pending] + accepted;
    }
  }

  /** A whole response follows a finished one, or runs into the one before it. */
  lemma WholeDue(responses: seq<bytes>, fates: seq<Fate>, host: HostState, last: HostState)
    requires |responses| == |fates| && NonEmpty(responses) && responses != [] && fates[0].Whole?
    requires Grows(HostState(host.done + [host.pending + responses[0]], []), last)
    ensures
      if host.pending != [] then last != Due(host, responses, fates)
      else Due(HostState(host.done + [host.pending + responses[0]], []), responses[1..], fates[1..])
           == Due(host, responses, fates)
  {
    var r := responses[0];
    var accepted := AcceptedOf(responses[1..], fates[1..]);
    assert r in responses && AcceptedOf(responses, fates) == [r] + accepted;
    if host.pending == [] {
      assert host.pending + r == r;
      assert host.done + [r] + [] + accepted == host.done + [] + ([r] + accepted);
    } else {
      var n := |host.done|;
      assert last.done[n] == last.done[..n + 1][n] == host.pending + r;
      assert Due(host, responses, fates).done[n] == host.pending;
    }
  }

  /** A response without its terminator stays pending, or lengthens what was pending before. */
  lemma UnterminatedDue(responses: seq<bytes>, fates: seq<Fate>, host: HostState, last: HostState)
    requires |responses| == |fates| && NonEmpty(responses) && responses != [] && fates[0].Unterminated?
    requires Grows(HostState(host.done, host.pending + responses[0]), last)
    ensures
      if host.pending != [] then last != Due(host, responses, fates)
      else Due(HostState(host.done, host.pending + responses[0]), responses[1..], fates[1..]) == Due(host, responses, fates)
  {
    var r := responses[0];
    var accepted := AcceptedOf(responses[1..], fates[1..]);
    assert r in responses && AcceptedOf(responses, fates) == [r] + accepted;
    if host.pending == [] {
      assert host.pending + r == r;
      assert host.done + [r] + accepted == host.done + [] + ([r] + accepted);
    } else {
      assert Due(host, responses, fates).done[|host.done|] == host.pending;
    }
  }

  lemma {:induction false} AcceptedAreGiven(responses: seq<bytes>, fates: seq<Fate>)
    requires |responses| == |fates| && NonEmpty(responses)
    ensures forall a | a in AcceptedOf(responses, fates) :: a != []
    decreases |responses|
  {
    if responses != [] {
      forall r | r in responses[1..]
        ensures r in responses
      {
      }
      AcceptedAreGiven(responses[1..], fates[1..]);
      assert responses[0] in responses;
    }
  }

  /** Serving non-empty responses without a failure, the host gets exactly those whose data the
      endpoint accepted if and only if the terminators balance. */
  lemma ServedExactly(attempts: seq<Attempt>, responses: seq<bytes>)
    requires !Serve(attempts, responses).outcome.Failed? && NonEmpty(responses)
    ensures
      var fates := FatesOf(attempts, responses);
      HostReads(Serve(attempts, responses).packets, HostState([], [])) == HostState(AcceptedOf(responses, fates), [])
      <==> Balanced(fates, false)
  {
    var fates := FatesOf(attempts, responses);
    ServedByFate(attempts, responses);
    GivenExactly(responses, fates, HostState([], []));
    assert [] + [] + AcceptedOf(responses, fates) == AcceptedOf(responses, fates);
  }

  // ----- what is left when a write fails

  /** How many responses are served before one fails. */
  function Served(attempts: seq<Attempt>, responses: seq<bytes>): (n: nat)
    ensures n <= |responses|
    decreases |responses|
  {
    if responses == [] then 0
    else
      var one := Respond(attempts, responses[0]);
      if one.outcome.Failed? then 0 else 1 + Served(one.rest, responses[1..])
  }

  /** The failing response finds the attempts that those before it left. */
  lemma {:induction false} FailsAt(attempts: seq<Attempt>, responses: seq<bytes>)
    requires Serve(attempts, responses).outcome.Failed?
    ensures
      var k := Served(attempts, responses);
      && k < |responses|
      && var before := Serve(attempts, responses[..k]);
         var last := Respond(before.rest, responses[k]);
         && !before.outcome.Failed? && last.outcome.Failed?
         && Serve(attempts, responses).packets == before.packets + last.packets
    decreases |responses|
  {
    var one := Respond(attempts, responses[0]);
    var k := Served(attempts, responses);
    if one.outcome.Failed? {
      assert responses[..0] == [];
      assert [] + one.packets == one.packets;
    } else {
      var rest := responses[1..];
      FailsAt(one.rest, rest);
      assert responses[..k][1..] == rest[..k - 1] && responses[..k][0] == responses[0];
      var before := Serve(one.rest, rest[..k - 1]);
      var last := Respond(before.rest, rest[k - 1]);
      assert one.packets + (before.packets + last.packets) == one.packets + before.packets + last.packets;
    }
  }

  /** What a failing response may leave on the bus: nothing, a beginning of it, or all of it
      without the terminator that it needs. */
  ghost predicate Cut(response: bytes, packets: seq<bytes>) {
    || packets == []
    || (exists n :: 0 <= n < |response| && packets == Packets(response[..n]))
    || (NeedsTerminator(response) && packets == Packets(response))
  }

  lemma {:induction false} FailedTransfer(attempts: seq<Attempt>, data: bytes)
    requires Transfer(attempts, data).outcome.Failed?
    ensures
      var packets := Transfer(attempts, data).packets;
      packets == [] || exists n :: 0 <= n < |data| && packets == Packets(data[..n])
    decreases |attempts|
  {
    if attempts[0].Interrupted? {
      FailedTransfer(attempts[1..], data);
    }
  }

  lemma FailedResponse(attempts: seq<Attempt>, response: bytes)
    requires Respond(attempts, response).outcome.Failed?
    ensures Cut(response, Respond(attempts, response).packets)
  {
    var first := Transfer(attempts, response);
    if first.outcome.Failed? {
      FailedTransfer(attempts, response);
    } else {
      SkippedIsNothing(attempts, response);
      FailedTransfer(first.rest, []);
      assert first.packets + [] == first.packets;
    }
  }

  /** The host has the accepted responses, and at most a beginning of the one that failed: finished
      when a short packet ended it, and pending otherwise. */
  ghost predicate HasBefore(host: HostState, accepted: seq<bytes>, failing: bytes) {
    || (host.done == accepted && host.pending <= failing)
    || (exists n :: 0 <= n < |failing| && host == HostState(accepted + [failing[..n]], []))
  }

  lemma CutReads(accepted: seq<bytes>, failing: bytes, packets: seq<bytes>)
    requires Cut(failing, packets)
    ensures HasBefore(HostReads(packets, HostState(accepted, [])), accepted, failing)
  {
    var host := HostState(accepted, []);
    if packets == [] {
      assert HostReads([], host) == host;
    } else if n :| 0 <= n < |failing| && packets == Packets(failing[..n]) {
      HostReadsTransfer(failing[..n], host);
      assert [] + failing[..n] == failing[..n];
    } else {
      HostReadsTransfer(failing, host);
      assert [] + failing == failing;
    }
  }

  /** When a write fails, the host has the responses accepted before it, provided their terminators
      balance, and of the failing one no more than a beginning. */
  lemma ServedBeforeFailure(attempts: seq<Attempt>, responses: seq<bytes>)
    requires Serve(attempts, responses).outcome.Failed? && NonEmpty(responses)
    ensures
      var k := Served(attempts, responses);
      && k < |responses|
      && var fates := FatesOf(attempts, responses[..k]);
         Balanced(fates, false) ==>
           HasBefore(HostReads(Serve(attempts, responses).packets, HostState([], [])),
                     AcceptedOf(responses[..k], fates), responses[k])
  {
    FailsAt(attempts, responses);
    var k := Served(attempts, responses);
    var before := responses[..k];
    var served := Serve(attempts, before);
    var last := Respond(served.rest, responses[k]);
    FailedResponse(served.rest, responses[k]);
    forall r | r in before
      ensures r in responses
    {
    }
    ServedExactly(attempts, before);
    HostReadsAppend(served.packets, last.packets, HostState([], []));
    CutReads(AcceptedOf(before, FatesOf(attempts, before)), responses[k], last.packets);
  }

  /** The loss does happen: an endpoint that goes away between a full packet and its terminator
      makes the host read two responses as one. */
  lemma LostTerminatorMerges(a: bytes, b: bytes)
    requires |a| == MAX_PACKET_SIZE && 0 < |b| < MAX_PACKET_SIZE
    ensures
      var served := Serve([Accepted(|a|), Unavailable, Accepted(|b|)], [a, b]);
      && !served.outcome.Failed?
      && HostReads(served.packets, HostState([], [])) == HostState([a + b], [])
  {
    var attempts := [Accepted(|a|), Unavailable, Accepted(|b|)];
    assert attempts[1..] == [Unavailable, Accepted(|b|)] && attempts[1..][1..] == [Accepted(|b|)];
    assert Respond(attempts, a) == Transferred([Accepted(|b|)], [a], Sent);
    assert [a, b][1..] == [b] && [b][1..] == [];
    assert Serve([Accepted(|b|)], [b]).packets == [b];
    assert Serve(attempts, [a, b]).packets == [a, b];
    assert [] + a == a;
    assert HostReads([a, b], HostState([], [])) == HostReads([b], HostState([], a));
    HostReadsTransfer(b, HostState([], a));
    assert Packets(b) == [b] && !NeedsTerminator(b);
  }

  /** When the endpoint accepts every write, possibly after interruptions, the host gets the very
      list of responses. */
  lemma {:induction false} UndisturbedIsStream(attempts: seq<Attempt>, responses: seq<bytes>)
    requires forall a | a in attempts :: a.Interrupted?
    ensures Serve(attempts, responses).packets == StreamPackets(responses)
    ensures Serve(attempts, responses).outcome.Sent?
    decreases |responses|
  {
    if responses != [] {
      InterruptedSends(attempts, responses[0]);
      InterruptedSends([], []);
      InterruptedSends([], responses[0]);
      assert Packets(responses[0]) + [] == Packets(responses[0]);
      UndisturbedIsStream([], responses[1..]);
    }
  }

  lemma {:induction false} InterruptedSends(attempts: seq<Attempt>, data: bytes)
    requires forall a | a in attempts :: a.Interrupted?
    ensures Transfer(attempts, data) == Transferred([], Packets(data), Sent)
    decreases |attempts|
  {
    if attempts != [] {
      assert attempts[0] in attempts;
      InterruptedSends(attempts[1..], data);
    }
  }
}
