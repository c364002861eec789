/** Fixed-width little-endian integers and the bounded reads and writes built on them. */
module LittleEndian {
  import opened Common

  type byte = x: int | 0 <= x < 256

  const U32: nat := 0x1_0000_0000
  const U64: nat := 0x1_0000_0000_0000_0000

  /** The number of values that fit in `width` bytes. */
  function Bound(width: nat): nat {
    if width == 0 then 1 else 256 * Bound(width - 1)
  }

  function Encode(width: nat, value: nat): (bytes: seq<byte>)
    ensures |bytes| == width
  {
    if width == 0 then [] else [(value % 256) as byte] + Encode(width - 1, value / 256)
  }

  function Decode(bytes: seq<byte>): nat {
    if bytes == [] then 0 else bytes[0] + 256 * Decode(bytes[1..])
  }

  lemma {:induction false} EncodeThenDecode(width: nat, value: nat)
    requires value < Bound(width)
    ensures Decode(Encode(width, value)) == value
  {
    if width > 0 {
      EncodeThenDecode(width - 1, value / 256);
      assert Encode(width, value)[1..] == Encode(width - 1, value / 256);
    }
  }

  lemma {:induction false} DecodeThenEncode(bytes: seq<byte>)
    ensures Decode(bytes) < Bound(|bytes|)
    ensures Encode(|bytes|, Decode(bytes)) == bytes
  {
    if bytes != [] {
      DecodeThenEncode(bytes[1..]);
      assert Decode(bytes) % 256 == bytes[0] && Decode(bytes) / 256 == Decode(bytes[1..]);
    }
  }

  lemma DigitsBelow(value: nat, bound: nat)
    requires bound > 0
    ensures value / 256 / bound == value / (256 * bound)
  {
    var q, r := value / 256 / bound, value / 256 % bound;
    var low := 256 * r + value % 256;
    assert value == (256 * bound) * q + low;
    assert 0 <= low < 256 * bound;
    assert q * (256 * bound) <= value < q * (256 * bound) + 256 * bound;
    QuotientIs(value, q, 256 * bound);
  }

  lemma {:induction false} BoundIsPositive(width: nat)
    ensures Bound(width) > 0
  {
    if width > 0 {
      BoundIsPositive(width - 1);
    }
  }

  /** The byte order: byte `k` of a word is its digit of weight 256 to the `k`, the lowest first. */
  lemma {:induction false} EncodeAt(width: nat, value: nat, k: nat)
    requires k < width
    ensures Bound(k) > 0 && Encode(width, value)[k] == value / Bound(k) % 256
    decreases k
  {
    BoundIsPositive(k);
    if k > 0 {
      EncodeAt(width - 1, value / 256, k - 1);
      DigitsBelow(value, Bound(k - 1));
    }
  }

  /** The digit of weight 256 to the `k`. */
  function Digit(value: nat, k: nat): nat {
    BoundIsPositive(k);
    value / Bound(k) % 256
  }

  lemma DecodeAt(bytes: seq<byte>, k: nat)
    requires k < |bytes|
    ensures Bound(k) > 0 && Decode(bytes) / Bound(k) % 256 == bytes[k]
  {
    DecodeThenEncode(bytes);
    EncodeAt(|bytes|, Decode(bytes), k);
  }

  lemma WordBounds()
    ensures Bound(0) == 1 && Bound(1) == 256 && Bound(2) == 0x1_0000
    ensures Bound(4) == U32
    ensures Bound(8) == U64
  {
    assert Bound(1) == 256 && Bound(2) == 0x1_0000 && Bound(3) == 0x100_0000;
    assert Bound(4) == 0x1_0000_0000;
    assert Bound(5) == 0x100_0000_0000 && Bound(6) == 0x1_0000_0000_0000;
    assert Bound(7) == 0x100_0000_0000_0000;
  }

  /** The bytes at `start` are the digits of a value to base 256, the lowest first. */
  ghost predicate Digits(data: seq<byte>, start: nat, width: nat, value: nat) {
    start + width <= |data| && forall k :: 0 <= k < width ==> data[start + k] == Digit(value, k)
  }

  predicate Holds(data: seq<byte>, start: nat, part: seq<byte>) {
    start + |part| <= |data| && data[start..start + |part|] == part
  }

  lemma HoldsBoth(data: seq<byte>, start: nat, a: seq<byte>, b: seq<byte>)
    requires Holds(data, start, a + b)
    ensures Holds(data, start, a) && Holds(data, start + |a|, b)
  {
    assert (a + b)[..|a|] == a && (a + b)[|a|..] == b;
  }

  lemma HoldsThree(data: seq<byte>, a: seq<byte>, b: seq<byte>, c: seq<byte>)
    requires data == a + b + c
    ensures Holds(data, 0, a) && Holds(data, |a|, b) && Holds(data, |a| + |b|, c)
  {
  }

  lemma DigitsOf(data: seq<byte>, start: nat, width: nat, value: nat)
    requires Holds(data, start, Encode(width, value))
    ensures Digits(data, start, width, value)
  {
    forall k | 0 <= k < width ensures data[start + k] == Digit(value, k) {
      EncodeAt(width, value, k);
      assert data[start..start + width][k] == data[start + k];
    }
  }

  ghost predicate IsWord(word: seq<byte>, width: nat, value: nat) {
    Digits(word, 0, width, value) && |word| == width
  }

  lemma EncodeIsWord(width: nat, value: nat)
    ensures IsWord(Encode(width, value), width, value)
  {
    DigitsOf(Encode(width, value), 0, width, value);
  }

  lemma HeldWord(data: seq<byte>, start: nat, word: seq<byte>, width: nat, value: nat)
    requires IsWord(word, width, value) && Holds(data, start, word)
    ensures Digits(data, start, width, value)
  {
    forall k | 0 <= k < width ensures data[start + k] == Digit(value, k) {
      assert data[start..start + width][k] == word[0 + k];
    }
  }

  /** A read at `index`, refused when the data is too short. */
  function Read(data: seq<byte>, index: nat, width: nat): Option<nat> {
    if index + width > |data| then None else Some(Decode(data[index..index + width]))
  }

  lemma ReadAfterPrefix(prefix: seq<byte>, width: nat, value: nat, suffix: seq<byte>)
    requires value < Bound(width)
    ensures Read(prefix + Encode(width, value) + suffix, |prefix|, width) == Some(value)
  {
    var data := prefix + Encode(width, value) + suffix;
    assert data[|prefix|..|prefix| + width] == Encode(width, value);
    EncodeThenDecode(width, value);
  }

  /** A write of `width` bytes in place. */
  method Write(data: array<byte>, index: nat, width: nat, value: nat)
    requires index + width <= data.Length
    modifies data
    ensures data[..] == old(data[..index]) + Encode(width, value) + old(data[index + width..])
    ensures forall k :: 0 <= k < width ==> Bound(k) > 0 && data[index + k] == value / Bound(k) % 256
  {
    var rest := value;
    assert Encode(width, value)[0..] == Encode(width, rest);
    for i := 0 to width
      invariant Encode(width - i, rest) == Encode(width, value)[i..]
      invariant forall k :: 0 <= k < i ==> data[index + k] == Encode(width, value)[k]
      invariant forall k :: 0 <= k < data.Length && !(index <= k < index + i) ==> data[k] == old(data[k])
    {
      assert Encode(width - i, rest)[0] == rest % 256;
      assert Encode(width - i, rest)[1..] == Encode(width - i - 1, rest / 256);
      data[index + i] := rest % 256;
      rest := rest / 256;
    }
    assert forall k :: index <= k < index + width ==> data[k] == Encode(width, value)[k - index];
    forall k | 0 <= k < width ensures Bound(k) > 0 && data[index + k] == value / Bound(k) % 256 {
      EncodeAt(width, value, k);
    }
  }
}
