/** The 64-bit FNV-1a integrity word, with the offset basis this file format uses. */
module Fnv {
  import opened Bytes
  import opened Indexing

  const OFFSET: nat := 1469598103934665603
  const PRIME: nat := 1099511628211
  const MODULUS: nat := 0x1_0000_0000_0000_0000

  /** Bitwise exclusive or of the low bits. */
  function Xor(a: nat, b: nat, bits: nat): nat {
    if bits == 0 then 0
    else (if a % 2 == b % 2 then 0 else 1) + 2 * Xor(a / 2, b / 2, bits - 1)
  }

  /** Exclusive or of a state with a byte: only the low eight bits change. */
  function XorByte(h: nat, b: Byte): nat {
    h / 256 * 256 + Xor(h % 256, b, 8)
  }

  function Step(h: nat, b: Byte): nat {
    XorByte(h, b) * PRIME % MODULUS
  }

  function From(h: nat, data: seq<Byte>): nat
    decreases |data|
  {
    if data == [] then h else From(Step(h, data[0]), data[1..])
  }

  function Checksum(data: seq<Byte>): nat {
    From(OFFSET, data)
  }

  method ComputeChecksum(data: seq<Byte>) returns (checksum: nat)
    ensures checksum == Checksum(data)
  {
    checksum := OFFSET;
    var i := 0;
    while i < |data|
      invariant 0 <= i <= |data|
      invariant From(checksum, data[i..]) == Checksum(data)
    {
      assert data[i..][1..] == data[i + 1..];
      checksum := XorByte(checksum, data[i]) * PRIME % MODULUS;
      i := i + 1;
    }
  }

  lemma {:induction false} FromAppend(h: nat, a: seq<Byte>, b: seq<Byte>)
    ensures From(h, a + b) == From(From(h, a), b)
    decreases |a|
  {
    if a == [] {
      assert a + b == b;
    } else {
      assert (a + b)[1..] == a[1..] + b;
      FromAppend(Step(h, a[0]), a[1..], b);
    }
  }

  lemma {:induction false} FromBound(h: nat, data: seq<Byte>)
    requires h < MODULUS
    ensures From(h, data) < MODULUS
    decreases |data|
  {
    if data != [] {
      FromBound(Step(h, data[0]), data[1..]);
    }
  }

  lemma {:induction false} XorBound(a: nat, b: nat, bits: nat)
    ensures bits == 8 ==> Xor(a, b, bits) < 256
    ensures Xor(a, b, bits) < Twos(bits)
  {
    if bits > 0 {
      XorBound(a / 2, b / 2, bits - 1);
    }
    EightBits();
  }

  function Twos(bits: nat): nat {
    if bits == 0 then 1 else 2 * Twos(bits - 1)
  }

  lemma EightBits()
    ensures Twos(8) == 256
  {
    assert Twos(4) == 16;
  }

  lemma {:induction false} XorInjective(a: nat, a': nat, b: nat, bits: nat)
    requires a < Twos(bits) && a' < Twos(bits) && Xor(a, b, bits) == Xor(a', b, bits)
    ensures a == a'
  {
    if bits > 0 {
      XorInjective(a / 2, a' / 2, b / 2, bits - 1);
    }
  }

  lemma {:induction false} XorCommutes(a: nat, b: nat, bits: nat)
    ensures Xor(a, b, bits) == Xor(b, a, bits)
  {
    if bits > 0 {
      XorCommutes(a / 2, b / 2, bits - 1);
    }
  }

  /** Multiplication by the prime is undone by its inverse modulo 2^64. */
  lemma PrimeInvertible(x: nat)
    requires x < MODULUS
    ensures (x * PRIME % MODULUS) * 14886173955864302971 % MODULUS == x
  {
    var inverse := 14886173955864302971;
    var k, y := x * PRIME / MODULUS, x * PRIME % MODULUS;
    assert x * PRIME == k * MODULUS + y;
    var t := (PRIME * inverse - 1) / MODULUS;
    assert PRIME * inverse == t * MODULUS + 1;
    assert y * inverse == (x * t - k * inverse) * MODULUS + x by {
      assert y * inverse == x * PRIME * inverse - k * MODULUS * inverse;
      assert x * PRIME * inverse == x * (t * MODULUS + 1);
    }
    DivModUnique(MODULUS, x * t - k * inverse, x);
  }

  lemma XorByteBound(h: nat, b: Byte)
    requires h < MODULUS
    ensures XorByte(h, b) < MODULUS
  {
    XorBound(h % 256, b, 8);
  }

  lemma XorByteParts(h: nat, b: Byte)
    ensures XorByte(h, b) / 256 == h / 256 && XorByte(h, b) % 256 == Xor(h % 256, b, 8)
  {
    XorBound(h % 256, b, 8);
  }

  lemma StepFactors(h: nat, b: Byte, h': nat, b': Byte)
    requires h < MODULUS && h' < MODULUS && Step(h, b) == Step(h', b')
    ensures XorByte(h, b) == XorByte(h', b')
  {
    XorByteBound(h, b);
    XorByteBound(h', b');
    PrimeInvertible(XorByte(h, b));
    PrimeInvertible(XorByte(h', b'));
  }

  /** For a fixed byte, each step is a bijection of the state. */
  lemma StepInjective(h: nat, h': nat, b: Byte)
    requires h < MODULUS && h' < MODULUS && Step(h, b) == Step(h', b)
    ensures h == h'
  {
    StepFactors(h, b, h', b);
    XorByteParts(h, b);
    XorByteParts(h', b);
    EightBits();
    XorInjective(h % 256, h' % 256, b, 8);
  }

  /** For a fixed state, a step is injective in the byte. */
  lemma StepByteInjective(h: nat, b: Byte, b': Byte)
    requires h < MODULUS && Step(h, b) == Step(h, b')
    ensures b == b'
  {
    StepFactors(h, b, h, b');
    XorByteParts(h, b);
    XorByteParts(h, b');
    XorCommutes(h % 256, b, 8);
    XorCommutes(h % 256, b', 8);
    EightBits();
    XorInjective(b, b', h % 256, 8);
  }

  lemma {:induction false} FromInjective(h: nat, h': nat, data: seq<Byte>)
    requires h < MODULUS && h' < MODULUS && From(h, data) == From(h', data)
    ensures h == h'
    decreases |data|
  {
    if data != [] {
      FromInjective(Step(h, data[0]), Step(h', data[0]), data[1..]);
      StepInjective(h, h', data[0]);
    }
  }

  /** Altering one byte always alters the checksum. */
  lemma OneByteChanges(data: seq<Byte>, i: nat, b: Byte)
    requires i < |data| && b != data[i]
    ensures Checksum(data[i := b]) != Checksum(data)
  {
    var h := From(OFFSET, data[..i]);
    var rest := data[i + 1..];
    assert data == data[..i] + ([data[i]] + rest);
    assert data[i := b] == data[..i] + ([b] + rest);
    FromAppend(OFFSET, data[..i], [data[i]] + rest);
    FromAppend(OFFSET, data[..i], [b] + rest);
    FromBound(OFFSET, data[..i]);
    assert ([data[i]] + rest)[1..] == rest && ([b] + rest)[1..] == rest;
    if Checksum(data[i := b]) == Checksum(data) {
      FromInjective(Step(h, b), Step(h, data[i]), rest);
      StepByteInjective(h, b, data[i]);
    }
  }
}
