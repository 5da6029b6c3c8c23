/** The laws asked of foreign code can all hold at once. */
module Witness {
  import opened Bytes
  import opened Errors
  import opened Frames
  import opened Envelope
  import opened SecureChannel
  import opened Capabilities
  import opened Algorithms
  import opened Objects
  import opened Options
  import opened Store
  import opened ForeignCode
  import opened WrappedObjects
  import opened Machine
  import opened Persistence
  import opened DeviceRuns
  import opened Client
  import opened Lockstep
  import Cbor

  /** A cipher that hides nothing and a MAC that binds nothing. */
  function PlainCipher(): Cipher {
    Cipher((k, x) => x, (k, iv, x) => x, (k, iv, x) => x, (k, x) => Zeros(BLOCK_SIZE), (k, n, x) => Zeros(BLOCK_SIZE),
           (k, n, x) => Zeros(MAC_LENGTH))
  }

  function Short(x: bytes): Option<bytes> {
    if |x| < 0x1_0000 then Some(x) else None
  }

  /** Every short string is a private key, and is its own serialization and PKCS #8 form. */
  function PlainKeys(): KeyLibrary {
    KeyLibrary((a, x) => Short(x), (a, seed) => Some(Zeros(32)), (a, x) => Short(x),
               (a, x) => if |x| < 0x1_0000 then Ok(x) else Err(InvalidData),
               (a, k) => k, (a, x) => Short(x), (m, n) => None, x => true)
  }

  function PlainForeign(): Foreign {
    Foreign(
      PlainCipher(), PlainKeys(), x => Zeros(32), Cbor.ReadWhole, Zeros(32), (s, n) => Zeros(n),
      (c, r, d, s) => Ok([]), (a, b, d, s) => Ok([]), r => Ok([]), k => [], (c, w, t, p, d, s) => Ok([]),
      (c, w, p, d) => Ok([]), (rs, k, d, s) => Ok([]), b => None, (r, p) => None, (k, p) => None, s => None,
      k => Zeros(P256_PUBLIC_KEY_LENGTH), d => None, (k, d, n) => None, (k, p, q, s) => None)
  }

  lemma PlainKeysLawful()
    ensures PlainKeys().Lawful()
  {
  }

  lemma PlainForeignLawful()
    ensures PlainForeign().Lawful() && ReadsBack(PlainForeign().reader)
  {
    PlainKeysLawful();
    LenientReaderQualifies();
  }

  const CONFIG := DeviceConfig([2, 4, 0], 1, 62, [AES128_YUBICO_AUTHENTICATION], [], Firmware(true, true, true, true, true))

  const CALM := Env(0, 0, [], [], Zeros(CHALLENGE_LENGTH), [])

  /** A run that the theorems are about: a factory device, and the two messages that open a session
      with its key. Afterwards client and device are in step, and the saved state restores. */
  lemma FactoryOpensSession()
    ensures
      var f := PlainForeign();
      && FactoryDefault(f, CONFIG, Zeros(32)).Ok?
      && var d := FactoryDefault(f, CONFIG, Zeros(32)).value;
         && DeviceInv(f, d) && Opens(Expire(d, 0), FACTORY_KEY.id, Zeros(32))
         && var (d1, created) := HandleEncoded(f, d, Encode(CreateRequest(FACTORY_KEY.id)), CALM);
            && Parse(created).Ok?
            && var opening := AuthenticateRequest(f.cipher, Zeros(32), Parse(created).value);
               && opening.Success?
               && Synchronized(HandleEncoded(f, d1, Encode(opening.value.request), CALM).0, opening.value.session)
  {
    var f := PlainForeign();
    PlainForeignLawful();
    assert FactoryDefault(f, CONFIG, Zeros(32)).Ok?;
    var d := FactoryDefault(f, CONFIG, Zeros(32)).value;
    FactoryRun(f, CONFIG, Zeros(32), []);
    HandshakeSynchronizes(f, d, FACTORY_KEY.id, Zeros(32), CALM, CALM);
  }

  // ----- images as bytes

  function IndexOf(images: seq<Image>, i: Image): (n: nat)
    ensures n <= |images| && (i in images ==> n < |images| && images[n] == i)
  {
    if images == [] then 0 else if images[0] == i then 0 else 1 + IndexOf(images[1..], i)
  }

  function Ones(n: nat): bytes {
    seq(n, _ => 1)
  }

  function CountOnes(x: bytes): nat {
    if x == [] || x[0] != 1 then 0 else 1 + CountOnes(x[1..])
  }

  /** An image is its number in a list, written as that many ones and a zero. */
  function ListCodec(images: seq<Image>): ImageCodec {
    ImageCodec(
      i => Ones(IndexOf(images, i)) + [0],
      x => var n := CountOnes(x); if n < |images| then Some(Loaded(images[n], n + 1)) else None)
  }

  lemma {:induction false} CountsOnes(n: nat, rest: bytes)
    ensures CountOnes(Ones(n) + [0] + rest) == n
  {
    if n > 0 {
      assert (Ones(n) + [0] + rest)[1..] == Ones(n - 1) + [0] + rest;
      CountsOnes(n - 1, rest);
    }
  }

  /** For any list of images, all those saved along a run for instance, one codec keeps them all. */
  lemma ListCodecKeeps(images: seq<Image>, i: Image)
    requires i in images
    ensures ListCodec(images).Keeps(i)
  {
    var codec := ListCodec(images);
    forall rest
      ensures codec.read(codec.write(i) + rest) == Some(Loaded(i, |codec.write(i)|))
    {
      CountsOnes(IndexOf(images, i), rest);
    }
  }
}
