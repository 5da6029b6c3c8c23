/** The message counter: a big-endian number incremented in place. */
module Counter {
  import opened Bytes

  function Pow256(n: nat): (p: nat)
    ensures p > 0
  {
    if n == 0 then 1 else 0x100 * Pow256(n - 1)
  }

  function Number(c: bytes): (v: nat)
  {
    if c == [] then 0 else 0x100 * Number(c[..|c| - 1]) + c[|c| - 1]
  }

  function Increment(c: bytes): (r: bytes)
    ensures |r| == |c|
  {
    if c == [] then []
    else
      var last := |c| - 1;
      if c[last] == 0xff then Increment(c[..last]) + [0] else c[..last] + [c[last] + 1]
  }

  lemma {:induction false} NumberBound(c: bytes)
    ensures Number(c) < Pow256(|c|)
  {
    if c != [] {
      NumberBound(c[..|c| - 1]);
    }
  }

  lemma {:induction false} IncrementWraps(c: bytes)
    ensures Number(Increment(c)) == if Number(c) + 1 == Pow256(|c|) then 0 else Number(c) + 1
  {
    if c != [] {
      var last := |c| - 1;
      var init := c[..last];
      IncrementWraps(init);
      NumberBound(init);
      assert Increment(c)[..last] == if c[last] == 0xff then Increment(init) else init;
      assert Pow256(|c|) == 0x100 * Pow256(last);
    }
  }

  /** Incrementing adds one, modulo the width of the counter. */
  lemma {:induction false} IncrementAddsOne(c: bytes)
    ensures Number(Increment(c)) == (Number(c) + 1) % Pow256(|c|)
  {
    IncrementWraps(c);
    NumberBound(c);
    WrapIsMod(Number(c), Pow256(|c|));
  }

  lemma WrapIsMod(v: nat, m: nat)
    requires v < m
    ensures (v + 1) % m == if v + 1 == m then 0 else v + 1
  {
  }

  lemma {:induction false} NumberInjective(c: bytes, d: bytes)
    requires |c| == |d| && Number(c) == Number(d)
    ensures c == d
  {
    if c != [] {
      var last := |c| - 1;
      NumberInjective(c[..last], d[..last]);
      assert c == c[..last] + [c[last]];
      assert d == d[..last] + [d[last]];
    }
  }

  lemma {:induction false} ZerosNumber(n: nat)
    ensures Number(Zeros(n)) == 0
  {
    if n > 0 {
      ZerosNumber(n - 1);
      assert Zeros(n)[..n - 1] == Zeros(n - 1);
    }
  }

  const U128_MODULUS: nat := 0x1_0000_0000_0000_0000_0000_0000_0000_0000

  lemma SixteenBytes()
    ensures Pow256(16) == U128_MODULUS
  {
    assert Pow256(1) == 0x100;
    assert Pow256(2) == 0x1_0000;
    assert Pow256(4) == 0x1_0000_0000;
    assert Pow256(6) == 0x1_0000_0000_0000;
    assert Pow256(8) == 0x1_0000_0000_0000_0000;
    assert Pow256(10) == 0x1_0000_0000_0000_0000_0000;
    assert Pow256(12) == 0x1_0000_0000_0000_0000_0000_0000;
    assert Pow256(14) == 0x1_0000_0000_0000_0000_0000_0000_0000;
  }

  /** A 16-byte counter counts modulo 2^128. */
  lemma CountsModulo(c: bytes, n: nat)
    requires |c| == 16 && Number(c) == n % U128_MODULUS
    ensures Number(Increment(c)) == (n + 1) % U128_MODULUS
  {
    var p := Pow256(|c|);
    IncrementAddsOne(c);
    SixteenBytes();
    assert p == U128_MODULUS;
    AddOneModulo(n);
  }

  lemma AddOneModulo(n: nat)
    ensures (n % U128_MODULUS + 1) % U128_MODULUS == (n + 1) % U128_MODULUS
  {
  }

  /** The counters a session starts from. */
  lemma FirstNumbers()
    ensures Number(Zeros(16)) == 0 && Number(Increment(Zeros(16))) == 1
  {
    ZerosNumber(16);
    CountsModulo(Zeros(16), 0);
  }

  method IncrementInPlace(counter: array<byte>)
    modifies counter
    ensures counter[..] == Increment(old(counter[..]))
  {
    var i := counter.Length;
    ghost var before := counter[..];
    assert before[..i] == before && counter[i..] == [];
    while i > 0
      invariant 0 <= i <= counter.Length
      invariant counter[..i] == before[..i]
      invariant Increment(before) == Increment(before[..i]) + counter[i..]
    {
      i := i - 1;
      ghost var tail := counter[i + 1..];
      assert before[..i + 1][..i] == before[..i];
      var overflow := counter[i] == 0xff;
      counter[i] := if overflow then 0 else counter[i] + 1;
      assert counter[i..] == [counter[i]] + tail;
      if !overflow {
        assert counter[..] == counter[..i] + counter[i..];
        return;
      }
    }
    assert counter[..] == counter[0..];
  }
}

/**
 The device end of the secure channel. The block cipher, its CBC mode, the CMAC
 and the key derivation are parameters; `Lawful` states the only facts used.
 */
module SecureChannel {
  import opened Bytes
  import opened Errors
  import opened Frames
  import opened Envelope
  import opened Counter

  const CHALLENGE_LENGTH := 8
  const P256_PUBLIC_KEY_LENGTH := 65
  const AUTHENTICATE_SESSION: byte := 0x04
  const SESSION_MESSAGE: byte := 0x05

  datatype Cipher = Cipher(
    block: (bytes, bytes) -> bytes,
    cbcEncrypt: (bytes, bytes, bytes) -> bytes,
    cbcDecrypt: (bytes, bytes, bytes) -> bytes,
    cmac: (bytes, bytes) -> bytes,
    derive: (bytes, byte, bytes) -> bytes,
    cryptogram: (bytes, byte, bytes) -> bytes)
  {
    ghost predicate Lawful() {
      && (forall k, iv, x :: |x| % BLOCK_SIZE == 0 ==>
            && |cbcEncrypt(k, iv, x)| == |x|
            && cbcDecrypt(k, iv, cbcEncrypt(k, iv, x)) == x)
      && (forall k, x :: |cmac(k, x)| == BLOCK_SIZE)
      && (forall k, n, x :: |cryptogram(k, n, x)| == MAC_LENGTH)
    }
  }

  type Block = b: bytes | |b| == 16 witness Zeros(16)

  datatype Secure = Secure(sid: byte, sEnc: bytes, sMac: bytes, sRmac: bytes, counter: Block, chaining: bytes)

  function CommandMac(c: Cipher, s: Secure, request: Frame): bytes
    requires |request.data| >= MAC_LENGTH
  {
    c.cmac(s.sMac, s.chaining + Encode(request)[..HEADER_LENGTH + |request.data| - MAC_LENGTH])
  }

  /** The part of a request that its MAC covers. */
  function Prefix(request: Frame): bytes {
    if |request.data| < MAC_LENGTH then [] else Encode(request)[..HEADER_LENGTH + |request.data| - MAC_LENGTH]
  }

  /** The chaining value after accepting a request. */
  function Chained(c: Cipher, s: Secure, request: Frame): bytes {
    c.cmac(s.sMac, s.chaining + Prefix(request))
  }

  function Truncated(mac: bytes): bytes {
    if |mac| >= MAC_LENGTH then mac[..MAC_LENGTH] else mac
  }

  function VerifyRequestMac(c: Cipher, s: Secure, request: Frame): (Secure, Result<bytes>) {
    if |request.data| < MAC_LENGTH then (s, Err(AuthenticationFailed))
    else
      var n := |request.data| - MAC_LENGTH;
      var mac := CommandMac(c, s, request);
      if Truncated(mac) != request.data[n..] then (s, Err(AuthenticationFailed))
      else (s.(chaining := mac), Ok(request.data[..n]))
  }

  function AuthenticateSymmetric(c: Cipher, s: Secure, request: Frame, expected: bytes): (Secure, Result<()>) {
    var (s', payload) := VerifyRequestMac(c, s, request);
    if payload.Err? then (s', Err(payload.error))
    else if |payload.value| == 1 + MAC_LENGTH && payload.value[0] == s.sid && payload.value[1..] == expected then
      (s'.(counter := Increment(s.counter)), Ok(()))
    else (s', Err(AuthenticationFailed))
  }

  function DecryptRequest(c: Cipher, s: Secure, request: Frame): (Secure, Result<Frame>) {
    var (s', payload) := VerifyRequestMac(c, s, request);
    if payload.Err? then (s', Err(payload.error))
    else
      var p := payload.value;
      if |p| < 1 + BLOCK_SIZE || p[0] != s.sid || (|p| - 1) % BLOCK_SIZE != 0 then (s', Err(SessionFailed))
      else
        var iv := c.block(s.sEnc, s.counter);
        var clear := Unpad(c.cbcDecrypt(s.sEnc, iv, p[1..]));
        (s', if clear.Err? then Err(clear.error) else Parse(clear.value))
  }

  function EncryptResponse(c: Cipher, s: Secure, response: Frame): (Secure, Result<Frame>) {
    var iv := c.block(s.sEnc, s.counter);
    var body := [s.sid] + c.cbcEncrypt(s.sEnc, iv, Pad(Encode(response)));
    var command: byte := SetBit(SESSION_MESSAGE, 0x80);
    var length := EncodeU16((|body| + MAC_LENGTH) % 0x1_0000);
    var mac := c.cmac(s.sRmac, s.chaining + [command] + length + body);
    (s.(counter := Increment(s.counter)), NewFrame(command, body + Truncated(mac)))
  }

  /** Session keys and cryptograms of a symmetric handshake. */
  function Handshake(hostChallenge: bytes, cardChallenge: bytes): bytes {
    hostChallenge + cardChallenge
  }

  datatype Opened = Opened(secure: Secure, card: bytes, host: bytes)

  function BeginSymmetric(c: Cipher, sid: byte, staticKeys: bytes, hostChallenge: bytes, cardChallenge: bytes)
    : Result<Opened>
  {
    if |staticKeys| != 32 || |hostChallenge| != CHALLENGE_LENGTH then Err(WrongLength)
    else
      var context := Handshake(hostChallenge, cardChallenge);
      var sMac := c.derive(staticKeys[16..], 0x06, context);
      Ok(Opened(
           Secure(sid, c.derive(staticKeys[..16], 0x04, context), sMac, c.derive(staticKeys[16..], 0x07, context),
                  Zeros(16), Zeros(16)),
           c.cryptogram(sMac, 0x00, context),
           c.cryptogram(sMac, 0x01, context)))
  }

  // ----- the session as the device keeps it

  class SecureSession {
    const sid: byte
    const sEnc: bytes
    const sMac: bytes
    const sRmac: bytes
    const counter: array<byte>
    var chaining: bytes

    ghost predicate Valid() {
      counter.Length == BLOCK_SIZE
    }

    function View(): Secure
      requires Valid()
      reads this, counter
    {
      Secure(sid, sEnc, sMac, sRmac, counter[..], chaining)
    }

    constructor Resume(s: Secure)
      ensures Valid() && View() == s && fresh(counter)
    {
      sid, sEnc, sMac, sRmac, chaining := s.sid, s.sEnc, s.sMac, s.sRmac, s.chaining;
      counter := new byte[BLOCK_SIZE](i requires 0 <= i < BLOCK_SIZE => s.counter[i]);
      new;
      assert counter[..] == s.counter;
    }

    method Verify(c: Cipher, request: Frame) returns (r: Result<bytes>)
      requires Valid()
      modifies this`chaining
      ensures Valid() && (View(), r) == VerifyRequestMac(c, old(View()), request)
    {
      if |request.data| < MAC_LENGTH {
        return Err(AuthenticationFailed);
      }
      var n := |request.data| - MAC_LENGTH;
      var encoded := EncodeBuffer(request);
      var input := chaining + encoded[..HEADER_LENGTH + n];
      var mac := c.cmac(sMac, input);
      if Truncated(mac) != request.data[n..] {
        return Err(AuthenticationFailed);
      }
      chaining := mac;
      r := Ok(request.data[..n]);
    }

    method Authenticate(c: Cipher, request: Frame, expected: bytes) returns (r: Result<()>)
      requires Valid()
      modifies this`chaining, counter
      ensures Valid() && (View(), r) == AuthenticateSymmetric(c, old(View()), request, expected)
    {
      var payload := Verify(c, request);
      if payload.Err? {
        return Err(payload.error);
      }
      var p := payload.value;
      if !(|p| == 1 + MAC_LENGTH && p[0] == sid && p[1..] == expected) {
        return Err(AuthenticationFailed);
      }
      IncrementInPlace(counter);
      r := Ok(());
    }

    method Decrypt(c: Cipher, request: Frame) returns (r: Result<Frame>)
      requires Valid()
      modifies this`chaining
      ensures Valid() && (View(), r) == DecryptRequest(c, old(View()), request)
    {
      var payload := Verify(c, request);
      if payload.Err? {
        return Err(payload.error);
      }
      var p := payload.value;
      if |p| < 1 + BLOCK_SIZE || p[0] != sid || (|p| - 1) % BLOCK_SIZE != 0 {
        return Err(SessionFailed);
      }
      var iv := c.block(sEnc, counter[..]);
      var clear := Unpad(c.cbcDecrypt(sEnc, iv, p[1..]));
      r := if clear.Err? then Err(clear.error) else Parse(clear.value);
    }

    method Encrypt(c: Cipher, response: Frame) returns (r: Result<Frame>)
      requires Valid()
      modifies counter
      ensures Valid() && (View(), r) == EncryptResponse(c, old(View()), response)
    {
      var iv := c.block(sEnc, counter[..]);
      var data := [sid] + c.cbcEncrypt(sEnc, iv, Pad(Encode(response)));
      var command: byte := SetBit(SESSION_MESSAGE, 0x80);
      var encodedWithoutMac := [command] + EncodeU16((|data| + MAC_LENGTH) % 0x1_0000) + data;
      var input := chaining + encodedWithoutMac;
      assert input == chaining + [command] + EncodeU16((|data| + MAC_LENGTH) % 0x1_0000) + data;
      data := data + Truncated(c.cmac(sRmac, input));
      IncrementInPlace(counter);
      r := NewFrame(command, data);
    }
  }

  // ----- nothing is accepted without its MAC

  /** A request ends with the first eight bytes of the MAC over the chaining value and everything
      before them. */
  predicate Maced(c: Cipher, s: Secure, request: Frame) {
    && |request.data| >= 8
    && var n := |request.data| - 8;
       var mac := c.cmac(s.sMac, s.chaining + ([request.command] + EncodeU16(|request.data| % 0x1_0000) + request.data[..n]));
       |mac| >= 8 && mac[..8] == request.data[n..]
  }

  lemma MacPrefix(request: Frame)
    requires |request.data| >= 8
    ensures Encode(request)[..HEADER_LENGTH + |request.data| - MAC_LENGTH]
            == [request.command] + EncodeU16(|request.data| % 0x1_0000) + request.data[..|request.data| - 8]
  {
  }

  lemma VerifiedIsMaced(c: Cipher, s: Secure, request: Frame)
    requires c.Lawful()
    ensures VerifyRequestMac(c, s, request).1.Ok? <==> Maced(c, s, request)
    ensures VerifyRequestMac(c, s, request).1.Ok? ==>
              VerifyRequestMac(c, s, request).1.value == request.data[..|request.data| - 8]
  {
    if |request.data| >= 8 {
      MacPrefix(request);
    }
  }

  /** A message is accepted only with its MAC, under its own session number, in whole blocks, and
      is then the padded plaintext of its ciphertext. */
  lemma AcceptedMessageIsMaced(c: Cipher, s: Secure, request: Frame)
    requires c.Lawful() && DecryptRequest(c, s, request).1.Ok?
    ensures
      && Maced(c, s, request) && |request.data| >= 25 && request.data[0] == s.sid
      && (|request.data| - 9) % 16 == 0
      && var clear := Unpad(c.cbcDecrypt(s.sEnc, c.block(s.sEnc, s.counter), request.data[1..|request.data| - 8]));
         clear.Ok? && Parse(clear.value) == DecryptRequest(c, s, request).1
  {
    VerifiedIsMaced(c, s, request);
    var p := request.data[..|request.data| - 8];
    assert p[1..] == request.data[1..|request.data| - 8];
  }

  /** A session is authenticated exactly by the expected host cryptogram under its number, with its MAC. */
  lemma AuthenticatedExactly(c: Cipher, s: Secure, request: Frame, expected: bytes)
    requires c.Lawful()
    ensures AuthenticateSymmetric(c, s, request, expected).1.Ok?
            <==> && Maced(c, s, request) && |request.data| == 17
                 && request.data[0] == s.sid && request.data[1..9] == expected
  {
    VerifiedIsMaced(c, s, request);
    if |request.data| == 17 {
      assert request.data[..9][1..] == request.data[1..9];
    }
  }

  // ----- what the MAC chaining value binds

  /** The chaining value after verifying a list of requests in order. */
  function Chain(c: Cipher, key: bytes, start: bytes, inputs: seq<bytes>): bytes {
    if inputs == [] then start
    else c.cmac(key, Chain(c, key, start, inputs[..|inputs| - 1]) + inputs[|inputs| - 1])
  }

  /** What was MACed for request `i` of the list. */
  function Used(c: Cipher, key: bytes, start: bytes, inputs: seq<bytes>, i: nat): bytes
    requires i < |inputs|
  {
    Chain(c, key, start, inputs[..i]) + inputs[i]
  }

  /** Two different inputs, one used in each list, with the same MAC. */
  ghost predicate Collides(c: Cipher, key: bytes, start: bytes, a: seq<bytes>, b: seq<bytes>, i: nat, j: nat) {
    && i < |a| && j < |b|
    && Used(c, key, start, a, i) != Used(c, key, start, b, j)
    && c.cmac(key, Used(c, key, start, a, i)) == c.cmac(key, Used(c, key, start, b, j))
  }

  /** An input used in the list whose MAC is the initial chaining value. */
  ghost predicate HitsStart(c: Cipher, key: bytes, start: bytes, a: seq<bytes>, i: nat) {
    i < |a| && c.cmac(key, Used(c, key, start, a, i)) == start
  }

  ghost predicate MacBroken(c: Cipher, key: bytes, start: bytes, a: seq<bytes>, b: seq<bytes>) {
    || (exists i, j :: Collides(c, key, start, a, b, i, j))
    || (exists i :: HitsStart(c, key, start, a, i))
    || (exists i :: HitsStart(c, key, start, b, i))
  }

  lemma UsedOfPrefix(c: Cipher, key: bytes, start: bytes, a: seq<bytes>, i: nat)
    requires i < |a| - 1
    ensures Used(c, key, start, a[..|a| - 1], i) == Used(c, key, start, a, i)
  {
    assert a[..|a| - 1][..i] == a[..i];
  }

  lemma MacBrokenGrows(c: Cipher, key: bytes, start: bytes, a: seq<bytes>, b: seq<bytes>)
    requires a != [] && b != [] && MacBroken(c, key, start, a[..|a| - 1], b[..|b| - 1])
    ensures MacBroken(c, key, start, a, b)
  {
    var a', b' := a[..|a| - 1], b[..|b| - 1];
    if i, j :| Collides(c, key, start, a', b', i, j) {
      UsedOfPrefix(c, key, start, a, i);
      UsedOfPrefix(c, key, start, b, j);
      assert Collides(c, key, start, a, b, i, j);
    } else if i :| HitsStart(c, key, start, a', i) {
      UsedOfPrefix(c, key, start, a, i);
      assert HitsStart(c, key, start, a, i);
    } else {
      var i :| HitsStart(c, key, start, b', i);
      UsedOfPrefix(c, key, start, b, i);
      assert HitsStart(c, key, start, b, i);
    }
  }

  /** Equal chaining values come from equal request lists, or the MAC is broken on
      inputs that the two lists themselves used. */
  lemma {:induction false} ChainBindsHistory(c: Cipher, key: bytes, start: bytes, a: seq<bytes>, b: seq<bytes>)
    requires c.Lawful() && |start| == BLOCK_SIZE
    requires Chain(c, key, start, a) == Chain(c, key, start, b)
    ensures a == b || MacBroken(c, key, start, a, b)
    decreases |a|
  {
    if a == [] {
      if b != [] {
        assert HitsStart(c, key, start, b, |b| - 1);
      }
    } else if b == [] {
      assert HitsStart(c, key, start, a, |a| - 1);
    } else {
      var i, j := |a| - 1, |b| - 1;
      if Used(c, key, start, a, i) != Used(c, key, start, b, j) {
        assert Collides(c, key, start, a, b, i, j);
      } else {
        SplitUsed(c, key, start, a, b);
        ChainBindsHistory(c, key, start, a[..i], b[..j]);
        if a[..i] == b[..j] {
          assert a == a[..i] + [a[i]] && b == b[..j] + [b[j]];
        } else {
          MacBrokenGrows(c, key, start, a, b);
        }
      }
    }
  }

  lemma SplitUsed(c: Cipher, key: bytes, start: bytes, a: seq<bytes>, b: seq<bytes>)
    requires c.Lawful() && |start| == BLOCK_SIZE && a != [] && b != []
    requires Used(c, key, start, a, |a| - 1) == Used(c, key, start, b, |b| - 1)
    ensures a[|a| - 1] == b[|b| - 1]
    ensures Chain(c, key, start, a[..|a| - 1]) == Chain(c, key, start, b[..|b| - 1])
  {
    var x, y := Used(c, key, start, a, |a| - 1), Used(c, key, start, b, |b| - 1);
    ChainLength(c, key, start, a[..|a| - 1]);
    ChainLength(c, key, start, b[..|b| - 1]);
    assert x[..BLOCK_SIZE] == Chain(c, key, start, a[..|a| - 1]) && x[BLOCK_SIZE..] == a[|a| - 1];
    assert y[..BLOCK_SIZE] == Chain(c, key, start, b[..|b| - 1]) && y[BLOCK_SIZE..] == b[|b| - 1];
  }

  lemma ChainLength(c: Cipher, key: bytes, start: bytes, inputs: seq<bytes>)
    requires c.Lawful() && |start| == BLOCK_SIZE
    ensures |Chain(c, key, start, inputs)| == BLOCK_SIZE
  {
  }
}
