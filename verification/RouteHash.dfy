/** The hash that tells routes apart, in 32-bit arithmetic. */
module RouteHash {

  const MODULUS: nat := 0x1_0000_0000

  /** Exclusive or, bit by bit from the bit of weight `weight` down. */
  function Xor(a: nat, b: nat, weight: nat): nat {
    if weight == 0 then 0
    else
      var rest := Xor(if a < weight then a else a - weight, if b < weight then b else b - weight, weight / 2);
      if (a < weight) == (b < weight) then rest else weight + rest
  }

  /** Exclusive or of a hash and an octet: only the lowest octet of the hash is touched. */
  function XorOctet(hash: nat, octet: nat): nat {
    hash / 256 * 256 + Xor(hash % 256, octet, 128)
  }

  /** Multiplication by the prime, on 32 bits. */
  function Scale(x: nat): nat {
    x * 16777619 % MODULUS
  }

  /** What one octet does to the hash. */
  function Mix(hash: nat, octet: nat): nat {
    Scale(XorOctet(hash, octet))
  }

  /** The four octets of a relay index, the highest first. */
  function Extend(hash: nat, relay: nat): nat {
    Mix(Mix(Mix(Mix(hash, relay / 0x100_0000 % 256), relay / 0x1_0000 % 256), relay / 256 % 256), relay % 256)
  }

  function HashOf(relays: seq<nat>): nat {
    if relays == [] then 0 else Extend(HashOf(relays[..|relays| - 1]), relays[|relays| - 1])
  }

  method Hash(relays: seq<nat>) returns (hash: nat)
    ensures hash == HashOf(relays)
  {
    hash := 0;
    for i := 0 to |relays|
      invariant hash == HashOf(relays[..i])
    {
      hash := Mix(hash, relays[i] / 0x100_0000 % 256);
      hash := Mix(hash, relays[i] / 0x1_0000 % 256);
      hash := Mix(hash, relays[i] / 256 % 256);
      hash := Mix(hash, relays[i] % 256);
      assert relays[..i + 1][..i] == relays[..i];
    }
    assert relays[..|relays|] == relays;
  }

  // ----- exclusive or -----

  /** What is left of `a` without its bit of weight `weight`. */
  function Rest(a: nat, weight: nat): nat {
    if a < weight then a else a - weight
  }

  /** The weights of the bits of an octet. */
  predicate IsWeight(weight: nat) {
    weight == 0 || weight == 1 || weight == 2 || weight == 4 || weight == 8 || weight == 16 || weight == 32
    || weight == 64 || weight == 128
  }

  /** One more than the largest value of the bits from the one of weight `weight` down. */
  function Bound(weight: nat): nat {
    if weight == 0 then 1 else 2 * weight
  }

  lemma {:induction false} XorBound(a: nat, b: nat, weight: nat)
    requires IsWeight(weight) && a < Bound(weight) && b < Bound(weight)
    ensures Xor(a, b, weight) < Bound(weight)
    decreases weight
  {
    if weight > 0 {
      XorBound(Rest(a, weight), Rest(b, weight), weight / 2);
    }
  }

  lemma {:induction false} XorTwice(a: nat, b: nat, weight: nat)
    requires IsWeight(weight) && a < Bound(weight) && b < Bound(weight)
    ensures Xor(Xor(a, b, weight), b, weight) == a
    decreases weight
  {
    if weight > 0 {
      XorBound(Rest(a, weight), Rest(b, weight), weight / 2);
      XorTwice(Rest(a, weight), Rest(b, weight), weight / 2);
    }
  }

  lemma {:induction false} XorCommutes(a: nat, b: nat, weight: nat)
    ensures Xor(a, b, weight) == Xor(b, a, weight)
    decreases weight
  {
    if weight > 0 {
      XorCommutes(Rest(a, weight), Rest(b, weight), weight / 2);
    }
  }

  lemma Parts(high: nat, low: nat)
    requires low < 256
    ensures (high * 256 + low) / 256 == high && (high * 256 + low) % 256 == low
  {
  }

  /** The hash keeps its higher octets. */
  lemma XorOctetIs(hash: nat, octet: nat)
    requires octet < 256
    ensures XorOctet(hash, octet) / 256 == hash / 256
    ensures XorOctet(hash, octet) % 256 == Xor(hash % 256, octet, 128)
    ensures hash < MODULUS ==> XorOctet(hash, octet) < MODULUS
  {
    XorBound(hash % 256, octet, 128);
    Parts(hash / 256, Xor(hash % 256, octet, 128));
  }

  lemma XorOctetTells(a: nat, b: nat, octet: nat)
    requires octet < 256 && XorOctet(a, octet) == XorOctet(b, octet)
    ensures a == b
  {
    XorOctetIs(a, octet);
    XorOctetIs(b, octet);
    XorTwice(a % 256, octet, 128);
    XorTwice(b % 256, octet, 128);
  }

  lemma XorOctetTellsOctet(hash: nat, a: nat, b: nat)
    requires a < 256 && b < 256 && XorOctet(hash, a) == XorOctet(hash, b)
    ensures a == b
  {
    var low := hash % 256;
    XorOctetIs(hash, a);
    XorOctetIs(hash, b);
    XorCommutes(low, a, 128);
    XorCommutes(low, b, 128);
    XorTwice(a, low, 128);
    XorTwice(b, low, 128);
  }

  // ----- one octet -----

  /** The multiplier is odd: multiplying by its inverse undoes it. */
  lemma ScaleUndone(x: nat)
    requires x < MODULUS
    ensures Scale(x) * 899433627 % MODULUS == x
  {
    var k := x * 16777619 / MODULUS;
    assert Scale(x) == x * 16777619 - MODULUS * k;
    assert Scale(x) * 899433627 == x + MODULUS * (3513497 * x - 899433627 * k);
  }

  lemma ScaleInjective(x: nat, y: nat)
    requires x < MODULUS && y < MODULUS && Scale(x) == Scale(y)
    ensures x == y
  {
    ScaleUndone(x);
    ScaleUndone(y);
  }

  lemma MixInjective(a: nat, b: nat, octet: nat)
    requires a < MODULUS && b < MODULUS && octet < 256 && Mix(a, octet) == Mix(b, octet)
    ensures a == b
  {
    XorOctetIs(a, octet);
    XorOctetIs(b, octet);
    ScaleInjective(XorOctet(a, octet), XorOctet(b, octet));
    XorOctetTells(a, b, octet);
  }

  /** Hashes that differ stay different when they are extended by the same relay. */
  lemma ExtendInjective(a: nat, b: nat, relay: nat)
    requires a < MODULUS && b < MODULUS && Extend(a, relay) == Extend(b, relay)
    ensures a == b
  {
    var o3, o2, o1, o0 := relay / 0x100_0000 % 256, relay / 0x1_0000 % 256, relay / 256 % 256, relay % 256;
    var a1, b1 := Mix(a, o3), Mix(b, o3);
    var a2, b2 := Mix(a1, o2), Mix(b1, o2);
    var a3, b3 := Mix(a2, o1), Mix(b2, o1);
    MixInjective(a3, b3, o0);
    MixInjective(a2, b2, o1);
    MixInjective(a1, b1, o2);
    MixInjective(a, b, o3);
  }

  // ----- two octets -----

  /** Values that differ in the lowest octet only do not do so after multiplying. */
  lemma NearStaysApart(x: nat, y: nat)
    requires x < MODULUS && y < MODULUS && x / 256 == y / 256
    requires Scale(x) / 256 == Scale(y) / 256
    ensures x == y
  {
    var d, e := x - y, Scale(x) - Scale(y);
    var k := x * 16777619 / MODULUS - y * 16777619 / MODULUS;
    assert -256 < d < 256 && -256 < e < 256;
    assert d * 16777619 - e == MODULUS * k;
    assert d * 403 - e == 0x100_0000 * (256 * k - d);
    assert -0x100_0000 < d * 403 - e < 0x100_0000;
    assert 256 * k - d == 0;
  }

  /** Two octets in a row can be told from the hash. */
  lemma MixTellsOctets(hash: nat, a: nat, b: nat, c: nat, d: nat)
    requires hash < MODULUS && a < 256 && b < 256 && c < 256 && d < 256
    requires Mix(Mix(hash, a), b) == Mix(Mix(hash, c), d)
    ensures a == c && b == d
  {
    var x, y := XorOctet(hash, a), XorOctet(hash, c);
    XorOctetIs(hash, a);
    XorOctetIs(hash, c);
    XorOctetIs(Scale(x), b);
    XorOctetIs(Scale(y), d);
    ScaleInjective(XorOctet(Scale(x), b), XorOctet(Scale(y), d));
    NearStaysApart(x, y);
    XorOctetTellsOctet(hash, a, c);
    XorOctetTellsOctet(Scale(x), b, d);
  }

  lemma HighOctetsAreZero(relay: nat)
    requires relay < 0x1_0000
    ensures relay / 0x100_0000 % 256 == 0 && relay / 0x1_0000 % 256 == 0 && relay / 256 % 256 == relay / 256 < 256
  {
  }

  /** Different indices of relays extend a hash to different hashes. */
  lemma ExtendTellsRelays(hash: nat, r: nat, s: nat)
    requires hash < MODULUS && r < 0x1_0000 && s < 0x1_0000 && Extend(hash, r) == Extend(hash, s)
    ensures r == s
  {
    HighOctetsAreZero(r);
    HighOctetsAreZero(s);
    MixTellsOctets(Mix(Mix(hash, 0), 0), r / 256, r % 256, s / 256, s % 256);
  }

  // ----- whole routes -----

  lemma {:induction false} HashBound(relays: seq<nat>)
    ensures HashOf(relays) < MODULUS
  {
    if relays != [] {
      HashBound(relays[..|relays| - 1]);
    }
  }

  /** Routes that differ in exactly one relay never have the same hash. */
  lemma {:induction false} OneRelayApart(a: seq<nat>, b: seq<nat>, k: nat)
    requires |a| == |b| && k < |a| && a[k] < 0x1_0000 && b[k] < 0x1_0000 && a[k] != b[k]
    requires forall i :: 0 <= i < |a| && i != k ==> a[i] == b[i]
    ensures HashOf(a) != HashOf(b)
    decreases |a|
  {
    var n := |a| - 1;
    HashBound(a[..n]);
    HashBound(b[..n]);
    if HashOf(a) == HashOf(b) {
      if k == n {
        assert a[..n] == b[..n];
        ExtendTellsRelays(HashOf(a[..n]), a[n], b[n]);
      } else {
        ExtendInjective(HashOf(a[..n]), HashOf(b[..n]), a[n]);
        OneRelayApart(a[..n], b[..n], k);
      }
    }
  }
}
