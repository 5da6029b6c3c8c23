/** The client as an object that talks to a device. */
module LiveClient {
  import opened Bytes
  import opened Errors
  import opened Frames
  import opened Envelope
  import opened Counter
  import opened SecureChannel
  import opened ForeignCode
  import opened LiveDevice
  import C = Client
  import L = Lockstep

  class SymmetricSession {
    const sid: byte
    const sEnc: bytes
    const sMac: bytes
    const sRmac: bytes
    const counter: array<byte>
    var commandMac: bytes

    ghost predicate Valid() {
      counter.Length == BLOCK_SIZE
    }

    function View(): C.Session
      requires Valid()
      reads this, counter
    {
      C.Session(sid, sEnc, sMac, sRmac, counter[..], commandMac)
    }

    constructor From(s: C.Session)
      ensures Valid() && View() == s && fresh(counter)
    {
      sid, sEnc, sMac, sRmac, commandMac := s.sid, s.sEnc, s.sMac, s.sRmac, s.commandMac;
      counter := new byte[BLOCK_SIZE](i requires 0 <= i < BLOCK_SIZE => s.counter[i]);
      new;
      assert counter[..] == s.counter;
    }

    /** Encrypt and MAC an inner frame. */
    method Seal(c: Cipher, inner: Frame) returns (sealed: C.Sealed)
      requires Valid()
      ensures sealed == C.Seal(c, View(), inner)
    {
      var iv := c.block(sEnc, counter[..]);
      var data := [sid];
      data := data + c.cbcEncrypt(sEnc, iv, Pad(Encode(inner)));
      var total := |data| + MAC_LENGTH;
      var encodedWithoutMac := [SESSION_MESSAGE, (total / 0x100) % 0x100, total % 0x100];
      encodedWithoutMac := encodedWithoutMac + data;
      var mac := c.cmac(sMac, commandMac + encodedWithoutMac);
      data := data + Truncated(mac);
      sealed := C.Sealed(Frame(SESSION_MESSAGE, data), mac);
    }

    /** Check and open the answer; counter and MAC advance only when everything verified. */
    method Open(c: Cipher, mac: bytes, outer: Frame) returns (r: C.Outcome<Frame>)
      requires Valid()
      modifies this`commandMac, counter
      ensures Valid() && (View(), r) == C.Open(c, old(View()), mac, outer)
    {
      if outer.command == ERROR_COMMAND {
        return C.Success(outer);
      }
      if outer.command != SetBit(SESSION_MESSAGE, 0x80) || |outer.data| < 1 + BLOCK_SIZE + MAC_LENGTH {
        return C.Failed;
      }
      var n := |outer.data| - MAC_LENGTH;
      var encoded := EncodeBuffer(outer);
      var expected := c.cmac(sRmac, mac + encoded[..HEADER_LENGTH + n]);
      if outer.data[n..] != Truncated(expected) || outer.data[0] != sid || (n - 1) % BLOCK_SIZE != 0 {
        return C.Failed;
      }
      var iv := c.block(sEnc, counter[..]);
      var clear := Unpad(c.cbcDecrypt(sEnc, iv, outer.data[1..n]));
      if clear.Err? {
        return C.Failed;
      }
      var response := Parse(clear.value);
      if response.Err? {
        return C.Failed;
      }
      commandMac := mac;
      IncrementInPlace(counter);
      r := C.Success(response.value);
    }

    /** One command over the device. */
    method Command(f: Foreign, transport: Device, inner: Frame, env: Env) returns (r: C.Outcome<Frame>)
      requires Valid()
      modifies this`commandMac, counter, transport
      ensures Valid()
      ensures L.Exchanged(transport.View(), View(), r) == L.Talk(f, old(transport.View()), old(View()), inner, env)
    {
      var sealed := Seal(f.cipher, inner);
      var encoded := EncodeBuffer(sealed.frame);
      var answer := transport.HandleEncoded(f, encoded, env);
      var outer := Parse(answer);
      if outer.Err? {
        return C.Failed;
      }
      r := Open(f.cipher, sealed.mac, outer.value);
    }
  }
}
