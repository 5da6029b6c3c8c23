/** The client end of the secure channel, written from its own copy of the protocol. */
module Client {
  import opened Bytes
  import opened Errors
  import opened Frames
  import opened Envelope
  import opened Counter
  import opened SecureChannel

  const HOST_CHALLENGE: bytes := [0x51, 0x75, 0x61, 0x6c, 0x69, 0x66, 0x79, 0x21]
  const CREATE_SESSION: byte := 0x03

  datatype Session = Session(sid: byte, sEnc: bytes, sMac: bytes, sRmac: bytes, counter: Block, commandMac: bytes)

  /** The client's failures are messages for a person; only their occurrence matters here. */
  datatype Outcome<T> = Success(value: T) | Failed

  datatype Sealed = Sealed(frame: Frame, mac: bytes)

  /** Encrypt and MAC one inner frame. */
  function Seal(c: Cipher, s: Session, inner: Frame): Sealed {
    var iv := c.block(s.sEnc, s.counter);
    var data := [s.sid] + c.cbcEncrypt(s.sEnc, iv, Pad(Encode(inner)));
    var total := |data| + MAC_LENGTH;
    var withoutMac := [SESSION_MESSAGE, (total / 0x100) % 0x100, total % 0x100] + data;
    var mac := c.cmac(s.sMac, s.commandMac + withoutMac);
    Sealed(Frame(SESSION_MESSAGE, data + Truncated(mac)), mac)
  }

  /** Check and open the outer response. An outer error frame is handed to the caller as it is. */
  function Open(c: Cipher, s: Session, mac: bytes, outer: Frame): (Session, Outcome<Frame>) {
    if outer.command == ERROR_COMMAND then (s, Success(outer))
    else if outer.command != SetBit(SESSION_MESSAGE, 0x80) then (s, Failed)
    else if |outer.data| < 1 + BLOCK_SIZE + MAC_LENGTH then (s, Failed)
    else
      var n := |outer.data| - MAC_LENGTH;
      var expected := c.cmac(s.sRmac, mac + Encode(outer)[..HEADER_LENGTH + n]);
      if outer.data[n..] != Truncated(expected) || outer.data[0] != s.sid || (n - 1) % BLOCK_SIZE != 0 then (s, Failed)
      else
        var iv := c.block(s.sEnc, s.counter);
        var clear := Unpad(c.cbcDecrypt(s.sEnc, iv, outer.data[1..n]));
        if clear.Err? then (s, Failed)
        else
          var response := Parse(clear.value);
          if response.Err? then (s, Failed)
          else (s.(commandMac := mac, counter := Increment(s.counter)), Success(response.value))
  }

  /** The client takes an answer that is no outer error only with the device's MAC over its own
      command's MAC, under its session number. */
  lemma TakenAnswerIsMaced(c: Cipher, s: Session, mac: bytes, outer: Frame)
    requires c.Lawful() && Open(c, s, mac, outer).1.Success? && outer.command != 0x7f
    ensures
      && outer.command == 0x85 && |outer.data| >= 25 && outer.data[0] == s.sid
      && var n := |outer.data| - 8;
         c.cmac(s.sRmac, mac + ([0x85] + EncodeU16(|outer.data| % 0x1_0000) + outer.data[..n]))[..8] == outer.data[n..]
  {
    var n := |outer.data| - 8;
    assert Encode(outer)[..HEADER_LENGTH + n] == [outer.command] + EncodeU16(|outer.data| % 0x1_0000) + outer.data[..n];
  }

  function CreateRequest(keyId: u16): Frame {
    Frame(CREATE_SESSION, EncodeU16(keyId) + HOST_CHALLENGE)
  }

  datatype Opening = Opening(session: Session, request: Frame)

  /** Check the card cryptogram and prepare the authentication frame. */
  function AuthenticateRequest(c: Cipher, staticKeys: bytes, create: Frame): Outcome<Opening>
    requires |staticKeys| == 32
  {
    if create.command != SetBit(CREATE_SESSION, 0x80) || |create.data| != 17 then Failed
    else
      var sid := create.data[0];
      var context := HOST_CHALLENGE + create.data[1..9];
      var sMac := c.derive(staticKeys[16..], 0x06, context);
      if create.data[9..] != c.cryptogram(sMac, 0x00, context) then Failed
      else
        var payload := [sid] + c.cryptogram(sMac, 0x01, context);
        var mac := c.cmac(sMac, Zeros(16) + [AUTHENTICATE_SESSION, 0, 17] + payload);
        Success(Opening(
          Session(sid, c.derive(staticKeys[..16], 0x04, context), sMac, c.derive(staticKeys[16..], 0x07, context),
                  Zeros(15) + [1], mac),
          Frame(AUTHENTICATE_SESSION, payload + Truncated(mac))))
  }

  /** The two ends hold the same keys, counter and chaining value. */
  predicate InStep(client: Session, device: Secure) {
    && client.sid == device.sid
    && client.sEnc == device.sEnc
    && client.sMac == device.sMac
    && client.sRmac == device.sRmac
    && client.counter == device.counter
    && client.commandMac == device.chaining
  }

  // ----- pieces of one exchange

  lemma BoxParts(sid: byte, ciphertext: bytes, mac: bytes)
    requires |mac| == MAC_LENGTH
    ensures
      var box := [sid] + ciphertext + mac;
      var n := |box| - MAC_LENGTH;
      && n == 1 + |ciphertext| && box[0] == sid
      && box[..n] == [sid] + ciphertext
      && box[n..] == mac
      && box[1..n] == ciphertext
      && ([sid] + ciphertext)[1..] == ciphertext
  {
  }

  lemma EncodePrefix(f: Frame, n: nat)
    requires n <= |f.data|
    ensures Encode(f)[..HEADER_LENGTH + n] == [f.command] + EncodeU16(|f.data| % 0x1_0000) + f.data[..n]
  {
  }

  lemma LengthBytes(n: nat)
    ensures EncodeU16(n % 0x1_0000) == [(n / 0x100) % 0x100, n % 0x100]
  {
    var q, r := n / 0x1_0000, n % 0x1_0000;
    var a, b := r / 0x100, r % 0x100;
    assert n == 0x100 * (0x100 * q + a) + b;
    assert n / 0x100 == 0x100 * q + a && n % 0x100 == b;
    assert (0x100 * q + a) % 0x100 == a;
  }

  lemma Regroup(a: bytes, b: bytes, c: bytes, d: bytes)
    ensures a + (b + c + d) == a + b + c + d
  {
  }

  function Ciphertext(c: Cipher, key: bytes, counter: bytes, f: Frame): bytes {
    c.cbcEncrypt(key, c.block(key, counter), Pad(Encode(f)))
  }

  lemma CiphertextOpens(c: Cipher, key: bytes, counter: bytes, f: Frame)
    requires c.Lawful() && SecureResponseFits(f)
    ensures
      var text := Ciphertext(c, key, counter, f);
      && |text| % BLOCK_SIZE == 0 && |text| >= BLOCK_SIZE
      && 1 + |text| + MAC_LENGTH == EnvelopeDataLength(|f.data|)
      && Unpad(c.cbcDecrypt(key, c.block(key, counter), text)) == Ok(Encode(f))
      && Parse(Encode(f)) == Ok(f)
  {
    FitsExactly(|f.data|);
    RoundUpBounds(|Encode(f)| + 1);
    UnpadPad(Encode(f));
    ParseEncode(f);
  }

  lemma SealedParts(c: Cipher, s: Session, inner: Frame)
    requires c.Lawful() && SecureResponseFits(inner)
    ensures
      var sealed := Seal(c, s, inner);
      var text := Ciphertext(c, s.sEnc, s.counter, inner);
      && sealed.frame == Frame(SESSION_MESSAGE, [s.sid] + text + Truncated(sealed.mac))
      && |sealed.mac| == BLOCK_SIZE && |Truncated(sealed.mac)| == MAC_LENGTH
      && sealed.frame.Valid()
      && sealed.mac
         == c.cmac(s.sMac, s.commandMac + [SESSION_MESSAGE] + EncodeU16(|sealed.frame.data| % 0x1_0000) + ([s.sid] + text))
  {
    CiphertextOpens(c, s.sEnc, s.counter, inner);
    FitsExactly(|inner.data|);
    var data := [s.sid] + Ciphertext(c, s.sEnc, s.counter, inner);
    var total := |data| + MAC_LENGTH;
    var length := EncodeU16(total % 0x1_0000);
    LengthBytes(total);
    assert [SESSION_MESSAGE, (total / 0x100) % 0x100, total % 0x100] + data == [SESSION_MESSAGE] + length + data;
    Regroup(s.commandMac, [SESSION_MESSAGE], length, data);
  }

  /** The MAC the client computed is the MAC the device computes. */
  lemma DeviceVerifies(c: Cipher, client: Session, device: Secure, inner: Frame)
    requires c.Lawful() && InStep(client, device) && SecureResponseFits(inner)
    ensures
      var sealed := Seal(c, client, inner);
      VerifyRequestMac(c, device, sealed.frame)
      == (device.(chaining := sealed.mac), Ok([client.sid] + Ciphertext(c, client.sEnc, client.counter, inner)))
  {
    SealedParts(c, client, inner);
    var sealed := Seal(c, client, inner);
    var f := sealed.frame;
    var text := Ciphertext(c, client.sEnc, client.counter, inner);
    BoxParts(client.sid, text, Truncated(sealed.mac));
    var n := |f.data| - MAC_LENGTH;
    EncodePrefix(f, n);
    Regroup(device.chaining, [SESSION_MESSAGE], EncodeU16(|f.data| % 0x1_0000), f.data[..n]);
    assert CommandMac(c, device, f) == sealed.mac;
  }

  /** The device recovers exactly the client's inner frame. */
  lemma DeviceReads(c: Cipher, client: Session, device: Secure, inner: Frame)
    requires c.Lawful() && InStep(client, device) && SecureResponseFits(inner)
    ensures DecryptRequest(c, device, Seal(c, client, inner).frame)
            == (device.(chaining := Seal(c, client, inner).mac), Ok(inner))
  {
    DeviceVerifies(c, client, device, inner);
    CiphertextOpens(c, client.sEnc, client.counter, inner);
    DecryptVerified(c, device, Seal(c, client, inner).frame, device.(chaining := Seal(c, client, inner).mac),
                    Ciphertext(c, client.sEnc, client.counter, inner), inner);
  }

  lemma DecryptVerified(c: Cipher, s: Secure, request: Frame, s': Secure, text: bytes, inner: Frame)
    requires VerifyRequestMac(c, s, request) == (s', Ok([s.sid] + text))
    requires |text| % BLOCK_SIZE == 0 && |text| >= BLOCK_SIZE
    requires Unpad(c.cbcDecrypt(s.sEnc, c.block(s.sEnc, s.counter), text)) == Ok(Encode(inner))
    requires Parse(Encode(inner)) == Ok(inner)
    ensures DecryptRequest(c, s, request) == (s', Ok(inner))
  {
    assert ([s.sid] + text)[1..] == text;
  }

  function Boxed(sid: byte, text: bytes, tag: bytes): Frame {
    Frame(SetBit(SESSION_MESSAGE, 0x80), [sid] + text + tag)
  }

  /** The tag that the outer frame of a response carries. */
  function ResponseTag(c: Cipher, key: bytes, chaining: bytes, sid: byte, text: bytes): bytes {
    Truncated(c.cmac(key, chaining + [SetBit(SESSION_MESSAGE, 0x80)] + EncodeU16((1 + |text| + MAC_LENGTH) % 0x1_0000)
                          + ([sid] + text)))
  }

  lemma DeviceSeals(c: Cipher, device: Secure, response: Frame)
    requires c.Lawful() && SecureResponseFits(response)
    ensures
      var text := Ciphertext(c, device.sEnc, device.counter, response);
      var tag := ResponseTag(c, device.sRmac, device.chaining, device.sid, text);
      && |tag| == MAC_LENGTH && Boxed(device.sid, text, tag).Valid()
      && EncryptResponse(c, device, response)
         == (device.(counter := Increment(device.counter)), Ok(Boxed(device.sid, text, tag)))
  {
    CiphertextOpens(c, device.sEnc, device.counter, response);
    var text := Ciphertext(c, device.sEnc, device.counter, response);
    assert |[device.sid] + text| + MAC_LENGTH == 1 + |text| + MAC_LENGTH;
  }

  /** An outer frame made of a session number, a ciphertext and a tag, taken apart. */
  lemma BoxedParts(sid: byte, text: bytes, tag: bytes, chaining: bytes)
    requires |tag| == MAC_LENGTH
    ensures
      var o := Boxed(sid, text, tag);
      var n := |o.data| - MAC_LENGTH;
      && n == 1 + |text| && o.data[0] == sid && o.data[n..] == tag && o.data[1..n] == text
      && chaining + Encode(o)[..HEADER_LENGTH + n]
         == chaining + [o.command] + EncodeU16((1 + |text| + MAC_LENGTH) % 0x1_0000) + ([sid] + text)
  {
    var o := Boxed(sid, text, tag);
    var n := |o.data| - MAC_LENGTH;
    BoxParts(sid, text, tag);
    EncodePrefix(o, n);
    Regroup(chaining, [o.command], EncodeU16(|o.data| % 0x1_0000), [sid] + text);
  }

  /** The client opens such a frame when the tag is the one it expects. */
  lemma OpenBoxed(c: Cipher, s: Session, mac: Block, text: bytes, response: Frame)
    requires c.Lawful() && |text| % BLOCK_SIZE == 0 && |text| >= BLOCK_SIZE
    requires Unpad(c.cbcDecrypt(s.sEnc, c.block(s.sEnc, s.counter), text)) == Ok(Encode(response))
    requires Parse(Encode(response)) == Ok(response)
    ensures
      Open(c, s, mac, Boxed(s.sid, text, ResponseTag(c, s.sRmac, mac, s.sid, text)))
      == (s.(commandMac := mac, counter := Increment(s.counter)), Success(response))
  {
    BoxedParts(s.sid, text, ResponseTag(c, s.sRmac, mac, s.sid, text), mac);
  }

  /** The client recovers exactly the device's inner response, and both have advanced alike. */
  lemma ClientReads(c: Cipher, client: Session, device: Secure, mac: Block, response: Frame)
    requires c.Lawful() && InStep(client, device) && SecureResponseFits(response)
    ensures var (device', outer) := EncryptResponse(c, device.(chaining := mac), response);
            && outer.Ok? && outer.value.Valid()
            && var (client', result) := Open(c, client, mac, outer.value);
               result == Success(response) && InStep(client', device')
  {
    DeviceSeals(c, device.(chaining := mac), response);
    CiphertextOpens(c, device.sEnc, device.counter, response);
    OpenBoxed(c, client, mac, Ciphertext(c, device.sEnc, device.counter, response), response);
  }

  /** After the handshake the two ends are in step. */
  lemma HandshakeInStep(c: Cipher, sid: byte, staticKeys: bytes, cardChallenge: bytes)
    requires c.Lawful() && |staticKeys| == 32 && |cardChallenge| == CHALLENGE_LENGTH
    ensures
      var begun := BeginSymmetric(c, sid, staticKeys, HOST_CHALLENGE, cardChallenge);
      && begun.Ok?
      && var create := Response(CREATE_SESSION, [sid] + cardChallenge + begun.value.card);
         var opening := AuthenticateRequest(c, staticKeys, create);
         && opening.Success?
         && opening.value.request.Valid()
         && var (device, accepted) := AuthenticateSymmetric(c, begun.value.secure, opening.value.request, begun.value.host);
            accepted.Ok? && InStep(opening.value.session, device)
  {
    var begun := BeginSymmetric(c, sid, staticKeys, HOST_CHALLENGE, cardChallenge);
    var start := begun.value;
    var create := Response(CREATE_SESSION, [sid] + cardChallenge + start.card);
    assert create.data[1..9] == cardChallenge && create.data[9..] == start.card;
    var context := HOST_CHALLENGE + cardChallenge;
    var sMac := c.derive(staticKeys[16..], 0x06, context);
    var opening := AuthenticateRequest(c, staticKeys, create);
    var payload := [sid] + c.cryptogram(sMac, 0x01, context);
    var mac := c.cmac(sMac, Zeros(16) + [AUTHENTICATE_SESSION, 0, 17] + payload);
    var request := opening.value.request;
    assert request == Frame(AUTHENTICATE_SESSION, payload + Truncated(mac));
    assert request.data[..9] == payload && request.data[9..] == Truncated(mac);
    assert Zeros(16) + Encode(request)[..HEADER_LENGTH + 9] == Zeros(16) + [AUTHENTICATE_SESSION, 0, 17] + payload;
    FirstCounter();
  }

  lemma FirstCounter()
    ensures Increment(Zeros(16)) == Zeros(15) + [1]
  {
    assert Zeros(16)[..15] == Zeros(15);
  }
}
