/** Bytes, and little-endian integers of any width. */
module Bytes {
  type Byte = b: nat | b < 256

  function Pow256(width: nat): (r: nat)
    ensures r > 0
  {
    if width == 0 then 1 else 256 * Pow256(width - 1)
  }

  /** The little-endian bytes of n. */
  function Le(n: nat, width: nat): (r: seq<Byte>)
    ensures |r| == width
  {
    if width == 0 then [] else [n % 256] + Le(n / 256, width - 1)
  }

  /** The little-endian value stored at a position. */
  function ValueAt(data: seq<Byte>, at: nat, width: nat): nat
    requires at + width <= |data|
    decreases width
  {
    if width == 0 then 0 else data[at] + 256 * ValueAt(data, at + 1, width - 1)
  }

  lemma {:induction false} ValueBound(data: seq<Byte>, at: nat, width: nat)
    requires at + width <= |data|
    ensures ValueAt(data, at, width) < Pow256(width)
    decreases width
  {
    if width > 0 {
      ValueBound(data, at + 1, width - 1);
    }
  }

  /** A stored number is read back. */
  lemma {:induction false} ValueOfLe(data: seq<Byte>, at: nat, n: nat, width: nat)
    requires n < Pow256(width) && at + width <= |data| && data[at..at + width] == Le(n, width)
    ensures ValueAt(data, at, width) == n
    decreases width
  {
    if width > 0 {
      var part := data[at..at + width];
      assert data[at] == part[0] == n % 256;
      assert data[at + 1..at + 1 + (width - 1)] == part[1..] == Le(n / 256, width - 1);
      ValueOfLe(data, at + 1, n / 256, width - 1);
    }
  }

  /** Storing a read number gives the bytes it was read from. */
  lemma {:induction false} LeOfValue(data: seq<Byte>, at: nat, width: nat)
    requires at + width <= |data|
    ensures Le(ValueAt(data, at, width), width) == data[at..at + width]
    decreases width
  {
    if width > 0 {
      LeOfValue(data, at + 1, width - 1);
      var v := ValueAt(data, at, width);
      assert v % 256 == data[at] && v / 256 == ValueAt(data, at + 1, width - 1);
      assert data[at..at + width] == [data[at]] + data[at + 1..at + 1 + (width - 1)];
    } else {
      assert data[at..at] == [];
    }
  }

  lemma {:induction false} ValueFrame(s: seq<Byte>, t: seq<Byte>, at: nat, width: nat)
    requires at + width <= |s| && at + width <= |t|
    requires forall i :: at <= i < at + width ==> s[i] == t[i]
    ensures ValueAt(s, at, width) == ValueAt(t, at, width)
    decreases width
  {
    if width > 0 {
      ValueFrame(s, t, at + 1, width - 1);
    }
  }

  lemma ValueInjective(s: seq<Byte>, t: seq<Byte>, at: nat, width: nat)
    requires at + width <= |s| && at + width <= |t| && ValueAt(s, at, width) == ValueAt(t, at, width)
    ensures s[at..at + width] == t[at..at + width]
  {
    LeOfValue(s, at, width);
    LeOfValue(t, at, width);
  }

  lemma Widths()
    ensures Pow256(4) == 0x1_0000_0000
    ensures Pow256(8) == 0x1_0000_0000_0000_0000
  {
    assert Pow256(1) == 256 && Pow256(2) == 0x1_0000 && Pow256(3) == 0x100_0000;
    assert Pow256(4) == 0x1_0000_0000;
    assert Pow256(5) == 0x100_0000_0000 && Pow256(6) == 0x1_0000_0000_0000;
    assert Pow256(7) == 0x100_0000_0000_0000;
  }
}
