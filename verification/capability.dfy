/** Capability bit numbers and the eight-byte big-endian capability bitmap. */
module Capabilities {
  import opened Bits
  import opened Bytes

  type Capability = c: nat | c < 64

  const GET_OPAQUE: Capability := 0x00
  const PUT_OPAQUE: Capability := 0x01
  const PUT_AUTHENTICATION_KEY: Capability := 0x02
  const PUT_ASYMMETRIC_KEY: Capability := 0x03
  const GENERATE_ASYMMETRIC_KEY: Capability := 0x04
  const SIGN_PKCS: Capability := 0x05
  const SIGN_PSS: Capability := 0x06
  const SIGN_ECDSA: Capability := 0x07
  const SIGN_EDDSA: Capability := 0x08
  const DECRYPT_PKCS: Capability := 0x09
  const DECRYPT_OAEP: Capability := 0x0a
  const DERIVE_ECDH: Capability := 0x0b
  const EXPORT_WRAPPED: Capability := 0x0c
  const IMPORT_WRAPPED: Capability := 0x0d
  const PUT_WRAP_KEY: Capability := 0x0e
  const GENERATE_WRAP_KEY: Capability := 0x0f
  const EXPORTABLE_UNDER_WRAP: Capability := 0x10
  const SET_OPTION: Capability := 0x11
  const GET_OPTION: Capability := 0x12
  const GET_PSEUDO_RANDOM: Capability := 0x13
  const PUT_MAC_KEY: Capability := 0x14
  const GENERATE_HMAC_KEY: Capability := 0x15
  const SIGN_HMAC: Capability := 0x16
  const VERIFY_HMAC: Capability := 0x17
  const GET_LOG_ENTRIES: Capability := 0x18
  const SIGN_SSH_CERTIFICATE: Capability := 0x19
  const GET_TEMPLATE: Capability := 0x1a
  const PUT_TEMPLATE: Capability := 0x1b
  const RESET_DEVICE: Capability := 0x1c
  const DECRYPT_OTP: Capability := 0x1d
  const CREATE_OTP_AEAD: Capability := 0x1e
  const RANDOMIZE_OTP_AEAD: Capability := 0x1f
  const REWRAP_FROM_OTP_AEAD_KEY: Capability := 0x20
  const REWRAP_TO_OTP_AEAD_KEY: Capability := 0x21
  const SIGN_ATTESTATION_CERTIFICATE: Capability := 0x22
  const PUT_OTP_AEAD_KEY: Capability := 0x23
  const GENERATE_OTP_AEAD_KEY: Capability := 0x24
  const WRAP_DATA: Capability := 0x25
  const UNWRAP_DATA: Capability := 0x26
  const DELETE_OPAQUE: Capability := 0x27
  const DELETE_AUTHENTICATION_KEY: Capability := 0x28
  const DELETE_ASYMMETRIC_KEY: Capability := 0x29
  const DELETE_WRAP_KEY: Capability := 0x2a
  const DELETE_HMAC_KEY: Capability := 0x2b
  const DELETE_TEMPLATE: Capability := 0x2c
  const DELETE_OTP_AEAD_KEY: Capability := 0x2d
  const CHANGE_AUTHENTICATION_KEY: Capability := 0x2e
  const PUT_SYMMETRIC_KEY: Capability := 0x2f
  const GENERATE_SYMMETRIC_KEY: Capability := 0x30
  const DELETE_SYMMETRIC_KEY: Capability := 0x31
  const DECRYPT_ECB: Capability := 0x32
  const ENCRYPT_ECB: Capability := 0x33
  const DECRYPT_CBC: Capability := 0x34
  const ENCRYPT_CBC: Capability := 0x35
  const PUT_PUBLIC_WRAP_KEY: Capability := 0x36
  const DELETE_PUBLIC_WRAP_KEY: Capability := 0x37
  const DERIVE_ECDH_KDF: Capability := 0x38
  const SESSION_OBJECTS: Capability := 0x39
  const SIGN_ML_DSA: Capability := 0x3a
  const ENCAPSULATE_ML_KEM: Capability := 0x3b
  const DECAPSULATE_ML_KEM: Capability := 0x3c
  const ENCAPSULATE_HYBRID_KEM: Capability := 0x3d
  const DECAPSULATE_HYBRID_KEM: Capability := 0x3e

  type CapabilitySet = s: bytes | |s| == 8 witness [0, 0, 0, 0, 0, 0, 0, 0]

  const NO_CAPABILITIES: CapabilitySet := [0, 0, 0, 0, 0, 0, 0, 0]
  const ALL_CAPABILITIES: CapabilitySet := [0xff, 0xff, 0xff, 0xff, 0xff, 0xff, 0xff, 0xff]

  predicate BitOn(x: bv8, k: nat)
    requires k < 8
  {
    match k
    case 0 => x & 0x01 != 0
    case 1 => x & 0x02 != 0
    case 2 => x & 0x04 != 0
    case 3 => x & 0x08 != 0
    case 4 => x & 0x10 != 0
    case 5 => x & 0x20 != 0
    case 6 => x & 0x40 != 0
    case _ => x & 0x80 != 0
  }

  function Raise(x: bv8, k: nat): bv8
    requires k < 8
  {
    match k
    case 0 => x | 0x01
    case 1 => x | 0x02
    case 2 => x | 0x04
    case 3 => x | 0x08
    case 4 => x | 0x10
    case 5 => x | 0x20
    case 6 => x | 0x40
    case _ => x | 0x80
  }

  function Lower(x: bv8, k: nat): bv8
    requires k < 8
  {
    match k
    case 0 => x & 0xfe
    case 1 => x & 0xfd
    case 2 => x & 0xfb
    case 3 => x & 0xf7
    case 4 => x & 0xef
    case 5 => x & 0xdf
    case 6 => x & 0xbf
    case _ => x & 0x7f
  }

  predicate HasBit(b: byte, k: nat)
    requires k < 8
  {
    BitOn(ToBits(b), k)
  }

  predicate Contains(s: CapabilitySet, c: Capability) {
    HasBit(s[7 - c / 8], c % 8)
  }

  /** The bitmap read as a set of capability numbers. */
  ghost function Members(s: CapabilitySet): set<Capability> {
    set c: Capability | 0 <= c < 64 && Contains(s, c)
  }

  predicate Covers(available: bv8, required: bv8) {
    available & required == required
  }

  predicate ContainsAll(available: CapabilitySet, required: CapabilitySet) {
    forall i | 0 <= i < 8 :: Covers(ToBits(available[i]), ToBits(required[i]))
  }

  predicate IsSubsetOf(s: CapabilitySet, available: CapabilitySet) {
    ContainsAll(available, s)
  }

  function Insert(s: CapabilitySet, c: Capability): CapabilitySet {
    s[7 - c / 8 := ToByte(Raise(ToBits(s[7 - c / 8]), c % 8))]
  }

  function Remove(s: CapabilitySet, c: Capability): CapabilitySet {
    s[7 - c / 8 := ToByte(Lower(ToBits(s[7 - c / 8]), c % 8))]
  }

  function Both(x: bv8, y: bv8): bv8 {
    x & y
  }

  function Intersection(a: CapabilitySet, b: CapabilitySet): CapabilitySet {
    seq(8, i requires 0 <= i < 8 => ToByte(Both(ToBits(a[i]), ToBits(b[i]))))
  }

  // ----- one byte at a time

  lemma RawCovers(a: bv8, r: bv8)
    requires r & 0x01 != 0 ==> a & 0x01 != 0
    requires r & 0x02 != 0 ==> a & 0x02 != 0
    requires r & 0x04 != 0 ==> a & 0x04 != 0
    requires r & 0x08 != 0 ==> a & 0x08 != 0
    requires r & 0x10 != 0 ==> a & 0x10 != 0
    requires r & 0x20 != 0 ==> a & 0x20 != 0
    requires r & 0x40 != 0 ==> a & 0x40 != 0
    requires r & 0x80 != 0 ==> a & 0x80 != 0
    ensures Covers(a, r)
  {
  }

  lemma CoversFromBits(a: bv8, r: bv8)
    requires forall k :: 0 <= k < 8 && BitOn(r, k) ==> BitOn(a, k)
    ensures Covers(a, r)
  {
    assert BitOn(r, 0) ==> BitOn(a, 0);
    assert BitOn(r, 1) ==> BitOn(a, 1);
    assert BitOn(r, 2) ==> BitOn(a, 2);
    assert BitOn(r, 3) ==> BitOn(a, 3);
    assert BitOn(r, 4) ==> BitOn(a, 4);
    assert BitOn(r, 5) ==> BitOn(a, 5);
    assert BitOn(r, 6) ==> BitOn(a, 6);
    assert BitOn(r, 7) ==> BitOn(a, 7);
    RawCovers(a, r);
  }

  lemma BitFromCovers(a: bv8, r: bv8, k: nat)
    requires k < 8 && Covers(a, r) && BitOn(r, k)
    ensures BitOn(a, k)
  {
    match k
    case 0 =>
    case 1 =>
    case 2 =>
    case 3 =>
    case 4 =>
    case 5 =>
    case 6 =>
    case _ =>
  }

  lemma BitOfRaise(x: bv8, j: nat, k: nat)
    requires j < 8 && k < 8
    ensures BitOn(Raise(x, j), k) == (k == j || BitOn(x, k))
  {
    match j
    case 0 =>
    case 1 =>
    case 2 =>
    case 3 =>
    case 4 =>
    case 5 =>
    case 6 =>
    case _ =>
  }

  lemma BitOfLower(x: bv8, j: nat, k: nat)
    requires j < 8 && k < 8
    ensures BitOn(Lower(x, j), k) == (k != j && BitOn(x, k))
  {
    match j
    case 0 =>
    case 1 =>
    case 2 =>
    case 3 =>
    case 4 =>
    case 5 =>
    case 6 =>
    case _ =>
  }

  lemma RawBoth(x: bv8, y: bv8)
    ensures (x & y) & 0x01 != 0 <==> x & 0x01 != 0 && y & 0x01 != 0
    ensures (x & y) & 0x02 != 0 <==> x & 0x02 != 0 && y & 0x02 != 0
    ensures (x & y) & 0x04 != 0 <==> x & 0x04 != 0 && y & 0x04 != 0
    ensures (x & y) & 0x08 != 0 <==> x & 0x08 != 0 && y & 0x08 != 0
    ensures (x & y) & 0x10 != 0 <==> x & 0x10 != 0 && y & 0x10 != 0
    ensures (x & y) & 0x20 != 0 <==> x & 0x20 != 0 && y & 0x20 != 0
    ensures (x & y) & 0x40 != 0 <==> x & 0x40 != 0 && y & 0x40 != 0
    ensures (x & y) & 0x80 != 0 <==> x & 0x80 != 0 && y & 0x80 != 0
  {
  }

  lemma BitOfBoth(x: bv8, y: bv8, k: nat)
    requires k < 8
    ensures BitOn(Both(x, y), k) == (BitOn(x, k) && BitOn(y, k))
  {
    RawBoth(x, y);
    match k
    case 0 =>
    case 1 =>
    case 2 =>
    case 3 =>
    case 4 =>
    case 5 =>
    case 6 =>
    case _ =>
  }

  // ----- the bitmap operations compute the set operations

  lemma SubsetContains(s: CapabilitySet, available: CapabilitySet, c: Capability)
    requires IsSubsetOf(s, available) && Contains(s, c)
    ensures Contains(available, c)
  {
    BitFromCovers(ToBits(available[7 - c / 8]), ToBits(s[7 - c / 8]), c % 8);
  }

  lemma CoversFromMembers(s: CapabilitySet, available: CapabilitySet, i: nat)
    requires i < 8 && Members(s) <= Members(available)
    ensures Covers(ToBits(available[i]), ToBits(s[i]))
  {
    forall k | 0 <= k < 8 && BitOn(ToBits(s[i]), k)
      ensures BitOn(ToBits(available[i]), k)
    {
      var c: Capability := 8 * (7 - i) + k;
      assert c / 8 == 7 - i && c % 8 == k;
      assert Contains(s, c);
      assert c in Members(s);
      assert c in Members(available);
    }
    CoversFromBits(ToBits(available[i]), ToBits(s[i]));
  }

  lemma SubsetMeaning(s: CapabilitySet, available: CapabilitySet)
    ensures IsSubsetOf(s, available) <==> Members(s) <= Members(available)
  {
    if IsSubsetOf(s, available) {
      forall c: Capability | c in Members(s)
        ensures c in Members(available)
      {
        SubsetContains(s, available, c);
      }
    }
    if Members(s) <= Members(available) {
      forall i | 0 <= i < 8
        ensures Covers(ToBits(available[i]), ToBits(s[i]))
      {
        CoversFromMembers(s, available, i);
      }
    }
  }

  lemma SubsetTransitive(a: CapabilitySet, b: CapabilitySet, c: CapabilitySet)
    requires IsSubsetOf(a, b) && IsSubsetOf(b, c)
    ensures IsSubsetOf(a, c)
  {
    SubsetMeaning(a, b);
    SubsetMeaning(b, c);
    SubsetMeaning(a, c);
  }

  lemma InsertContains(s: CapabilitySet, c: Capability, d: Capability)
    ensures Contains(Insert(s, c), d) == (d == c || Contains(s, d))
  {
    if d / 8 == c / 8 {
      BitOfRaise(ToBits(s[7 - c / 8]), c % 8, d % 8);
    }
  }

  lemma InsertMeaning(s: CapabilitySet, c: Capability)
    ensures Members(Insert(s, c)) == Members(s) + {c}
  {
    forall d: Capability
      ensures d in Members(Insert(s, c)) <==> d in Members(s) + {c}
    {
      InsertContains(s, c, d);
    }
  }

  lemma RemoveContains(s: CapabilitySet, c: Capability, d: Capability)
    ensures Contains(Remove(s, c), d) == (d != c && Contains(s, d))
  {
    if d / 8 == c / 8 {
      BitOfLower(ToBits(s[7 - c / 8]), c % 8, d % 8);
    }
  }

  lemma RemoveMeaning(s: CapabilitySet, c: Capability)
    ensures Members(Remove(s, c)) == Members(s) - {c}
  {
    forall d: Capability
      ensures d in Members(Remove(s, c)) <==> d in Members(s) - {c}
    {
      RemoveContains(s, c, d);
    }
  }

  lemma IntersectionContains(a: CapabilitySet, b: CapabilitySet, c: Capability)
    ensures Contains(Intersection(a, b), c) == (Contains(a, c) && Contains(b, c))
  {
    var i, k := 7 - c / 8, c % 8;
    assert Intersection(a, b)[i] == ToByte(Both(ToBits(a[i]), ToBits(b[i])));
    BitOfBoth(ToBits(a[i]), ToBits(b[i]), k);
  }

  lemma IntersectionMeaning(a: CapabilitySet, b: CapabilitySet)
    ensures Members(Intersection(a, b)) == Members(a) * Members(b)
  {
    forall c: Capability
      ensures c in Members(Intersection(a, b)) <==> c in Members(a) * Members(b)
    {
      IntersectionContains(a, b, c);
    }
  }

  lemma NoneMeaning()
    ensures Members(NO_CAPABILITIES) == {}
  {
    assert forall c: Capability :: !Contains(NO_CAPABILITIES, c) by {
      forall c: Capability
        ensures !Contains(NO_CAPABILITIES, c)
      {
        assert NO_CAPABILITIES[7 - c / 8] == 0;
        assert ToBits(0) == 0;
      }
    }
  }

  // ----- loops over capabilities

  method FromCapabilities(values: seq<Capability>) returns (r: CapabilitySet)
    ensures Members(r) == set c | c in values
  {
    r := NO_CAPABILITIES;
    NoneMeaning();
    for i := 0 to |values|
      invariant Members(r) == set c | c in values[..i]
    {
      InsertMeaning(r, values[i]);
      r := Insert(r, values[i]);
      assert values[..i + 1] == values[..i] + [values[i]];
    }
    assert values[..|values|] == values;
  }

  /** What the compiled firmware profile offers beyond the published protocol. */
  datatype Firmware = Firmware(
    extendedCurves: bool,
    postQuantum: bool,
    prefixedEcdh: bool,
    sessionObjects: bool,
    directRsaWrap: bool)

  predicate SupportedCapability(f: Firmware, c: Capability) {
    if c == DERIVE_ECDH_KDF then f.prefixedEcdh
    else if c == SESSION_OBJECTS then f.sessionObjects
    else SIGN_ML_DSA <= c <= DECAPSULATE_HYBRID_KEM ==> f.postQuantum
  }

  const FIRMWARE_GATED: seq<Capability> := [
    DERIVE_ECDH_KDF, SESSION_OBJECTS, SIGN_ML_DSA, ENCAPSULATE_ML_KEM,
    DECAPSULATE_ML_KEM, ENCAPSULATE_HYBRID_KEM, DECAPSULATE_HYBRID_KEM]

  function RetainUpTo(f: Firmware, s: CapabilitySet, n: nat): CapabilitySet
    requires n <= |FIRMWARE_GATED|
  {
    if n == 0 then s
    else
      var c := FIRMWARE_GATED[n - 1];
      var kept := RetainUpTo(f, s, n - 1);
      if SupportedCapability(f, c) then kept else Remove(kept, c)
  }

  function RetainFirmwareSupported(f: Firmware, s: CapabilitySet): CapabilitySet {
    RetainUpTo(f, s, |FIRMWARE_GATED|)
  }

  lemma {:induction false} RetainUpToContains(f: Firmware, s: CapabilitySet, n: nat, c: Capability)
    requires n <= |FIRMWARE_GATED|
    ensures Contains(RetainUpTo(f, s, n), c)
            <==> Contains(s, c) && (c in FIRMWARE_GATED[..n] ==> SupportedCapability(f, c))
  {
    if n > 0 {
      var last := FIRMWARE_GATED[n - 1];
      RetainUpToContains(f, s, n - 1, c);
      assert FIRMWARE_GATED[..n] == FIRMWARE_GATED[..n - 1] + [last];
      RemoveContains(RetainUpTo(f, s, n - 1), last, c);
    }
  }

  lemma GatedIsListed(f: Firmware, c: Capability)
    requires !SupportedCapability(f, c)
    ensures c in FIRMWARE_GATED
  {
    assert c == FIRMWARE_GATED[0] || c == FIRMWARE_GATED[1] || c == FIRMWARE_GATED[2] || c == FIRMWARE_GATED[3]
        || c == FIRMWARE_GATED[4] || c == FIRMWARE_GATED[5] || c == FIRMWARE_GATED[6];
  }

  /** Filtering removes exactly the members that the firmware does not support. */
  lemma RetainMeaning(f: Firmware, s: CapabilitySet)
    ensures Members(RetainFirmwareSupported(f, s)) == set c | c in Members(s) && SupportedCapability(f, c)
  {
    forall c: Capability
      ensures c in Members(RetainFirmwareSupported(f, s)) <==> c in Members(s) && SupportedCapability(f, c)
    {
      RetainUpToContains(f, s, |FIRMWARE_GATED|, c);
      assert FIRMWARE_GATED[..|FIRMWARE_GATED|] == FIRMWARE_GATED;
      if !SupportedCapability(f, c) {
        GatedIsListed(f, c);
      }
    }
  }

  method RetainLoop(f: Firmware, s: CapabilitySet) returns (r: CapabilitySet)
    ensures r == RetainFirmwareSupported(f, s)
  {
    r := s;
    for i := 0 to |FIRMWARE_GATED|
      invariant r == RetainUpTo(f, s, i)
    {
      if !SupportedCapability(f, FIRMWARE_GATED[i]) {
        r := Remove(r, FIRMWARE_GATED[i]);
      }
    }
  }
}
