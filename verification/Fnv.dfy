/**
 * FNV-1a over 64 bits.  Every step is a bijection on the state, so a single changed
 * byte always changes the hash.
 */
module Fnv {
  import opened Bytes

  const OFFSET_BASIS: nat := 14695981039346656037
  const PRIME: nat := 1099511628211

  /** Inverse of the prime modulo 2^64. */
  const INVERSE: nat := 14886173955864302971

  function TwoTo(bits: nat): nat {
    if bits == 0 then 1 else 2 * TwoTo(bits - 1)
  }

  /** Bitwise exclusive or of the low bits of two numbers. */
  function XorBits(a: nat, b: nat, bits: nat): (x: nat)
    ensures x < TwoTo(bits)
  {
    if bits == 0 then 0
    else (if a % 2 == b % 2 then 0 else 1) + 2 * XorBits(a / 2, b / 2, bits - 1)
  }

  lemma EightBits()
    ensures TwoTo(8) == 256
  {
    assert TwoTo(8) == 2 * TwoTo(7) == 4 * TwoTo(6) == 8 * TwoTo(5) == 16 * TwoTo(4);
  }

  function Xor(a: Byte, b: Byte): Byte {
    EightBits();
    XorBits(a, b, 8)
  }

  /** Exclusive or with a fixed number loses nothing. */
  lemma {:induction false} XorBitsInjective(a: nat, b: nat, c: nat, bits: nat)
    requires b < TwoTo(bits) && c < TwoTo(bits) && XorBits(a, b, bits) == XorBits(a, c, bits)
    ensures b == c
  {
    if bits > 0 {
      XorBitsInjective(a / 2, b / 2, c / 2, bits - 1);
    }
  }

  lemma {:induction false} XorBitsCommutes(a: nat, b: nat, bits: nat)
    ensures XorBits(a, b, bits) == XorBits(b, a, bits)
  {
    if bits > 0 {
      XorBitsCommutes(a / 2, b / 2, bits - 1);
    }
  }

  /** The step of the loop: exclusive-or into the low byte, then multiply modulo 2^64. */
  function Step(hash: nat, b: Byte): (next: nat)
    ensures next < TWO_64
  {
    Mix(hash, b) * PRIME % TWO_64
  }

  function Mix(hash: nat, b: Byte): nat {
    hash - hash % 256 + Xor(hash % 256, b)
  }

  function Hash(data: Buffer): (hash: nat)
    ensures hash < TWO_64
  {
    HashFrom(OFFSET_BASIS, data)
  }

  function HashFrom(hash: nat, data: Buffer): (result: nat)
    ensures hash < TWO_64 ==> result < TWO_64
    decreases |data|
  {
    if data == [] then hash else Step(HashFrom(hash, data[..|data| - 1]), data[|data| - 1])
  }

  lemma XorInjective(a: Byte, b: Byte, c: Byte)
    ensures Xor(a, b) == Xor(a, c) ==> b == c
    ensures Xor(a, b) == Xor(c, b) ==> a == c
  {
    EightBits();
    if Xor(a, b) == Xor(a, c) {
      XorBitsInjective(a, b, c, 8);
    }
    XorBitsCommutes(a, b, 8);
    XorBitsCommutes(c, b, 8);
    if Xor(a, b) == Xor(c, b) {
      XorBitsInjective(b, a, c, 8);
    }
  }

  lemma MultiplyThenInvert(x: nat)
    requires x < TWO_64
    ensures x * PRIME % TWO_64 * INVERSE % TWO_64 == x
  {
    var quotient := x * PRIME / TWO_64;
    var product := x * PRIME % TWO_64;
    assert PRIME * INVERSE == 1 + INVERSE * PRIME / TWO_64 * TWO_64;
    var carry := INVERSE * PRIME / TWO_64;
    assert x * PRIME == quotient * TWO_64 + product;
    assert product * INVERSE == x + (x * carry - quotient * INVERSE) * TWO_64;
  }

  /** Multiplication by the prime loses nothing. */
  lemma MultiplyInjective(x: nat, y: nat)
    requires x < TWO_64 && y < TWO_64 && x * PRIME % TWO_64 == y * PRIME % TWO_64
    ensures x == y
  {
    MultiplyThenInvert(x);
    MultiplyThenInvert(y);
  }

  lemma MixInjective(h: nat, k: nat, b: Byte, c: Byte)
    requires h < TWO_64 && k < TWO_64
    ensures Mix(h, b) < TWO_64
    ensures Mix(h, b) == Mix(k, c) ==> h / 256 == k / 256 && Xor(h % 256, b) == Xor(k % 256, c)
  {
    assert Mix(h, b) / 256 == h / 256 && Mix(h, b) % 256 == Xor(h % 256, b);
    assert Mix(k, c) / 256 == k / 256 && Mix(k, c) % 256 == Xor(k % 256, c);
  }

  /** A step is injective in the state and in the byte. */
  lemma StepInjective(h: nat, k: nat, b: Byte, c: Byte)
    requires h < TWO_64 && k < TWO_64 && Step(h, b) == Step(k, c)
    ensures b == c ==> h == k
    ensures h == k ==> b == c
  {
    MixInjective(h, k, b, c);
    MixInjective(k, h, c, b);
    MultiplyInjective(Mix(h, b), Mix(k, c));
    XorInjective(h % 256, b, c);
    XorInjective(h % 256, b, k % 256);
  }

  /** The byte before the split changes the state; equal bytes after it keep the states apart. */
  lemma {:induction false} DifferentStatesStayDifferent(h: nat, k: nat, data: Buffer)
    requires h < TWO_64 && k < TWO_64 && h != k
    ensures HashFrom(h, data) != HashFrom(k, data)
    decreases |data|
  {
    if data != [] {
      var front, last := data[..|data| - 1], data[|data| - 1];
      DifferentStatesStayDifferent(h, k, front);
      if Step(HashFrom(h, front), last) == Step(HashFrom(k, front), last) {
        StepInjective(HashFrom(h, front), HashFrom(k, front), last, last);
      }
    }
  }

  lemma {:induction false} HashConcat(hash: nat, a: Buffer, b: Buffer)
    ensures HashFrom(hash, a + b) == HashFrom(HashFrom(hash, a), b)
    decreases |b|
  {
    if b == [] {
      assert a + b == a;
    } else {
      HashConcat(hash, a, b[..|b| - 1]);
      assert (a + b)[..|a + b| - 1] == a + b[..|b| - 1];
    }
  }

  /** Changing exactly one byte always changes the hash. */
  lemma OneByteChangesHash(data: Buffer, i: nat, b: Byte)
    requires i < |data| && b != data[i]
    ensures Hash(data[i := b]) != Hash(data)
  {
    var before, after := data[..i], data[i + 1..];
    assert data == before + ([data[i]] + after) && data[i := b] == before + ([b] + after);
    var h := HashFrom(OFFSET_BASIS, before);
    HashConcat(OFFSET_BASIS, before, [data[i]] + after);
    HashConcat(OFFSET_BASIS, before, [b] + after);
    HashConcat(h, [data[i]], after);
    HashConcat(h, [b], after);
    OneStep(h, data[i]);
    OneStep(h, b);
    if Step(h, data[i]) == Step(h, b) {
      StepInjective(h, h, data[i], b);
    }
    DifferentStatesStayDifferent(Step(h, data[i]), Step(h, b), after);
  }

  lemma OneStep(h: nat, b: Byte)
    ensures HashFrom(h, [b]) == Step(h, b)
  {
    assert [b][..0] == [];
    assert HashFrom(h, []) == h;
  }

  /** `fnv1a64`. */
  method Fnv1a64(data: Buffer) returns (hash: nat)
    ensures hash == Hash(data)
  {
    hash := OFFSET_BASIS;
    for i := 0 to |data|
      invariant hash == HashFrom(OFFSET_BASIS, data[..i])
    {
      assert data[..i + 1][..i] == data[..i];
      hash := Step(hash, data[i]);
    }
    assert data[..|data|] == data;
  }
}
