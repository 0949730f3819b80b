/** The 64-bit FNV-1a fingerprint of the ABI signature. */
module Fnv {
  import opened Text
  import opened Utf8

  const MODULUS := 0x1_0000_0000_0000_0000
  const OFFSET_BASIS := 0xcbf2_9ce4_8422_2325
  const PRIME := 0x0000_0100_0000_01b3

  /** The inverse of PRIME modulo 2^64. */
  const PRIME_INVERSE := 0xce96_5057_aff6_957b

  type Hash = h: nat | h < MODULUS

  function Pow2(n: nat): (p: nat)
    ensures p > 0
  {
    if n == 0 then 1 else 2 * Pow2(n - 1)
  }

  /** Exclusive or of the low bits of two numbers. */
  function Xor(x: nat, y: nat, bits: nat): nat {
    if bits == 0 then 0 else (x % 2 + y % 2) % 2 + 2 * Xor(x / 2, y / 2, bits - 1)
  }

  lemma LowAndHigh(r: nat, low: nat, high: nat)
    requires r == low + 2 * high && low < 2
    ensures r % 2 == low && r / 2 == high
  {
  }

  lemma XorUnfolds(x: nat, y: nat, bits: nat, r: nat)
    requires bits > 0 && r == Xor(x, y, bits)
    ensures r % 2 == (x % 2 + y % 2) % 2 && r / 2 == Xor(x / 2, y / 2, bits - 1)
  {
    var low, high := (x % 2 + y % 2) % 2, Xor(x / 2, y / 2, bits - 1);
    LowAndHigh(r, low, high);
  }

  lemma {:induction false} XorStaysSmall(x: nat, y: nat, bits: nat)
    ensures Xor(x, y, bits) < Pow2(bits)
  {
    if bits > 0 {
      XorStaysSmall(x / 2, y / 2, bits - 1);
    }
  }

  /** Exclusive or with the same number twice changes nothing. */
  lemma {:induction false} XorUndoesItself(x: nat, y: nat, bits: nat, r: nat)
    requires x < Pow2(bits) && r == Xor(x, y, bits)
    ensures Xor(r, y, bits) == x
  {
    if bits > 0 {
      var u, high := Xor(r, y, bits), Pow2(bits - 1);
      assert x / 2 < high;
      XorUnfolds(x, y, bits, r);
      XorUnfolds(r, y, bits, u);
      XorUndoesItself(x / 2, y / 2, bits - 1, r / 2);
      LowBitReturns(x, y, r, u);
    }
  }

  lemma LowBitReturns(x: nat, y: nat, r: nat, u: nat)
    requires u / 2 == x / 2
    requires r % 2 == (x % 2 + y % 2) % 2 && u % 2 == (r % 2 + y % 2) % 2
    ensures u == x
  {
    assert u == 2 * (u / 2) + u % 2 && x == 2 * (x / 2) + x % 2;
  }

  lemma {:induction false} XorCommutes(x: nat, y: nat, bits: nat)
    ensures Xor(x, y, bits) == Xor(y, x, bits)
  {
    if bits > 0 {
      XorCommutes(x / 2, y / 2, bits - 1);
    }
  }

  /** Exclusive or with a byte, which reaches only the low eight bits. */
  function XorByte(h: Hash, b: byte): (r: nat) {
    h - h % 256 + Xor(h % 256, b as nat, 8)
  }

  lemma XorByteSplits(h: Hash, b: byte)
    ensures XorByte(h, b) < MODULUS
    ensures XorByte(h, b) % 256 == Xor(h % 256, b as nat, 8)
    ensures XorByte(h, b) / 256 == h / 256
  {
    var low := Xor(h % 256, b as nat, 8);
    XorStaysSmall(h % 256, b as nat, 8);
    assert Pow2(8) == 256 by { assert Pow2(4) == 16; }
    Recombine(h, h / 256, h % 256, low);
  }

  /** Replacing the low byte of a state. */
  lemma Recombine(h: Hash, high: nat, old8: nat, low: nat)
    requires h == 256 * high + old8 && old8 < 256 && low < 256
    ensures h - old8 + low < MODULUS && (h - old8 + low) % 256 == low && (h - old8 + low) / 256 == high
  {
    assert h - old8 + low == 256 * high + low;
  }

  lemma XorByteUndoesItself(h: Hash, b: byte)
    ensures XorByte(h, b) < MODULUS && XorByte(XorByte(h, b), b) == h
  {
    XorByteSplits(h, b);
    XorByteSplits(XorByte(h, b), b);
    assert Pow2(8) == 256 by { assert Pow2(4) == 16; }
    XorUndoesItself(h % 256, b as nat, 8, Xor(h % 256, b as nat, 8));
  }

  lemma XorByteTellsBytesApart(h: Hash, b: byte, c: byte)
    requires XorByte(h, b) == XorByte(h, c)
    ensures b == c
  {
    XorByteSplits(h, b);
    XorByteSplits(h, c);
    assert Pow2(8) == 256 by { assert Pow2(4) == 16; }
    XorCommutes(h % 256, b as nat, 8);
    XorCommutes(h % 256, c as nat, 8);
    XorUndoesItself(b as nat, h % 256, 8, Xor(b as nat, h % 256, 8));
    XorUndoesItself(c as nat, h % 256, 8, Xor(c as nat, h % 256, 8));
  }

  function WrappingMul(h: Hash, k: nat): Hash {
    (h * k) % MODULUS
  }

  /** Multiplying by PRIME modulo 2^64 is undone by multiplying by its inverse, both ways. */
  lemma MultiplicationIsUndone(h: Hash)
    ensures WrappingMul(WrappingMul(h, PRIME), PRIME_INVERSE) == h
    ensures WrappingMul(WrappingMul(h, PRIME_INVERSE), PRIME) == h
  {
    var excess := (PRIME * PRIME_INVERSE - 1) / MODULUS;
    assert PRIME * PRIME_INVERSE == 1 + excess * MODULUS;
    var q := h * PRIME / MODULUS;
    assert WrappingMul(h, PRIME) * PRIME_INVERSE == h + (h * excess - q * PRIME_INVERSE) * MODULUS;
    ModuloOfMultiple(h, h * excess - q * PRIME_INVERSE);
    var p := h * PRIME_INVERSE / MODULUS;
    assert WrappingMul(h, PRIME_INVERSE) * PRIME == h + (h * excess - p * PRIME) * MODULUS;
    ModuloOfMultiple(h, h * excess - p * PRIME);
  }

  lemma ModuloOfMultiple(h: Hash, k: int)
    ensures (h + k * MODULUS) % MODULUS == h
  {
  }

  /** One turn of the loop. */
  function FnvStep(h: Hash, b: byte): Hash {
    XorByteUndoesItself(h, b);
    WrappingMul(XorByte(h, b), PRIME)
  }

  /** The state a turn came from. */
  function FnvUnstep(h: Hash, b: byte): Hash {
    XorByteUndoesItself(WrappingMul(h, PRIME_INVERSE), b);
    XorByte(WrappingMul(h, PRIME_INVERSE), b)
  }

  /** For each byte, a turn is a bijection on the 64-bit states; and from each state different
      bytes lead to different states. */
  lemma FnvStepIsABijection(h: Hash, b: byte, c: byte)
    ensures FnvUnstep(FnvStep(h, b), b) == h && FnvStep(FnvUnstep(h, b), b) == h
    ensures FnvStep(h, b) == FnvStep(h, c) ==> b == c
  {
    XorByteUndoesItself(h, b);
    XorByteUndoesItself(h, c);
    MultiplicationIsUndone(XorByte(h, b));
    MultiplicationIsUndone(XorByte(h, c));
    MultiplicationIsUndone(h);
    XorByteUndoesItself(WrappingMul(h, PRIME_INVERSE), b);
    if FnvStep(h, b) == FnvStep(h, c) { XorByteTellsBytesApart(h, b, c); }
  }

  /** The state after hashing bytes from a start state. */
  function FnvFrom(start: Hash, bytes: Bytes): Hash {
    if bytes == [] then start else FnvStep(FnvFrom(start, bytes[..|bytes| - 1]), bytes[|bytes| - 1])
  }

  /** Hashing a common suffix keeps different states different. */
  lemma {:induction false} SuffixKeepsStatesApart(h: Hash, g: Hash, bytes: Bytes)
    requires FnvFrom(h, bytes) == FnvFrom(g, bytes)
    ensures h == g
  {
    if bytes != [] {
      var front, b := bytes[..|bytes| - 1], bytes[|bytes| - 1];
      FnvStepIsABijection(FnvFrom(h, front), b, b);
      FnvStepIsABijection(FnvFrom(g, front), b, b);
      SuffixKeepsStatesApart(h, g, front);
    }
  }

  lemma {:induction false} FnvOfConcat(start: Hash, a: Bytes, b: Bytes)
    ensures FnvFrom(start, a + b) == FnvFrom(FnvFrom(start, a), b)
  {
    if b == [] {
      assert a + b == a;
    } else {
      FnvOfConcat(start, a, b[..|b| - 1]);
      assert (a + b)[..|a + b| - 1] == a + b[..|b| - 1];
    }
  }

  /** The hash of a whole text. */
  function Fnv1a(bytes: Bytes): Hash {
    FnvFrom(OFFSET_BASIS, bytes)
  }

  /** Two texts of equal length that differ in exactly one byte always hash differently. */
  lemma OneByteEditChangesTheHash(a: Bytes, b: Bytes, i: nat)
    requires |a| == |b| && i < |a| && a[i] != b[i]
    requires a[..i] == b[..i] && a[i + 1..] == b[i + 1..]
    ensures Fnv1a(a) != Fnv1a(b)
  {
    var h := FnvFrom(OFFSET_BASIS, a[..i]);
    SplitAround(a, i);
    SplitAround(b, i);
    if Fnv1a(a) == Fnv1a(b) {
      SuffixKeepsStatesApart(FnvStep(h, a[i]), FnvStep(h, b[i]), a[i + 1..]);
      FnvStepIsABijection(h, a[i], b[i]);
    }
  }

  lemma SplitAround(a: Bytes, i: nat)
    requires i < |a|
    ensures Fnv1a(a) == FnvFrom(FnvStep(FnvFrom(OFFSET_BASIS, a[..i]), a[i]), a[i + 1..])
  {
    assert a == a[..i + 1] + a[i + 1..];
    FnvOfConcat(OFFSET_BASIS, a[..i + 1], a[i + 1..]);
    assert a[..i + 1][..i] == a[..i];
  }

  // -- The hexadecimal form -----------------------------------------------------------

  lemma SixteenDigitsSuffice()
    ensures Pow16(16) == MODULUS
  {
    assert Pow16(4) == 0x1_0000;
    assert Pow16(8) == 0x1_0000_0000;
    assert Pow16(12) == 0x1_0000_0000_0000;
  }

  /** The sixteen-digit form tells all hashes apart. */
  lemma HexTellsHashesApart(h: Hash, g: Hash)
    ensures Hex(h, 16) == Hex(g, 16) ==> h == g
  {
    SixteenDigitsSuffice();
    HexRoundTrip(h, 16);
    HexRoundTrip(g, 16);
  }

  /** fnv1a_hex. */
  method Fnv1aHex(bytes: Bytes) returns (hex: string)
    ensures hex == Hex(Fnv1a(bytes), 16)
  {
    var hash: Hash := OFFSET_BASIS;
    for i := 0 to |bytes|
      invariant hash == FnvFrom(OFFSET_BASIS, bytes[..i])
    {
      XorByteUndoesItself(hash, bytes[i]);
      assert bytes[..i + 1][..i] == bytes[..i];
      hash := WrappingMul(XorByte(hash, bytes[i]), PRIME);
    }
    assert bytes[..|bytes|] == bytes;
    hex := Hex(hash, 16);
  }

  lemma XorOfTwoBytes()
    ensures Xor(0x25, 0x61, 8) == 0x44
  {
    assert Xor(0x2, 0x6, 4) == 0x4;
    assert Xor(0x4, 0xc, 5) == 0x8;
    assert Xor(0x9, 0x18, 6) == 0x11;
  }

  /** The empty text hashes to the offset basis. */
  lemma HashOfNothing()
    ensures Fnv1a([]) == 0xcbf2_9ce4_8422_2325
  {
  }

  /** A known answer of 64-bit FNV-1a: the hash of "a". */
  lemma HashOfA()
    ensures Fnv1a([0x61]) == 0xaf63_dc4c_8601_ec8c
  {
    assert [0x61 as byte][..0] == [];
    XorOfTwoBytes();
    StepOfA(0xcbf2_9ce4_8422_2325);
  }

  lemma ProductOfA(h: Hash)
    requires h == 0xcbf2_9ce4_8422_2344
    ensures WrappingMul(h, PRIME) == 0xaf63_dc4c_8601_ec8c
  {
    assert h * PRIME == 0xcbf29ce5de * MODULUS + 0xaf63_dc4c_8601_ec8c;
  }

  lemma StepOfA(h: Hash)
    requires h == 0xcbf2_9ce4_8422_2325 && Xor(0x25, 0x61, 8) == 0x44
    ensures FnvStep(h, 0x61) == 0xaf63_dc4c_8601_ec8c
  {
    assert h % 256 == 0x25;
    var x := XorByte(h, 0x61);
    assert x == h - 0x25 + 0x44;
    ProductOfA(x);
  }
}
