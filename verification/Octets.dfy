/** Octets, bit strings and the big-endian integers read from them. */
module Octets {
  type byte = x: int | 0 <= x < 256

  /** Two octets at an offset, most significant first. */
  function U16(data: seq<byte>, offset: nat): (r: nat)
    requires offset + 2 <= |data|
    ensures r < 0x10000
  {
    var hi: int, lo: int := data[offset], data[offset + 1];
    256 * hi + lo
  }

  /** The two octets of a 16-bit number. */
  function U16Bytes(n: nat): (r: seq<byte>)
    requires n < 0x10000
    ensures |r| == 2 && U16(r, 0) == n
  {
    [n / 256, n % 256]
  }

  /** Four octets at an offset, most significant first. */
  function U32(data: seq<byte>, offset: nat): (r: nat)
    requires offset + 4 <= |data|
    ensures r < 0x1_0000_0000
  {
    0x10000 * U16(data, offset) + U16(data, offset + 2)
  }

  function U32Bytes(n: nat): (r: seq<byte>)
    requires n < 0x1_0000_0000
    ensures |r| == 4 && U32(r, 0) == n
  {
    U16Bytes(n / 0x10000) + U16Bytes(n % 0x10000)
  }

  /** A big-endian number fixes its octets. */
  lemma U16Octets(data: seq<byte>, offset: nat)
    requires offset + 2 <= |data|
    ensures data[offset..offset + 2] == U16Bytes(U16(data, offset))
  {
  }

  lemma U32Octets(data: seq<byte>, offset: nat)
    requires offset + 4 <= |data|
    ensures data[offset..offset + 4] == U32Bytes(U32(data, offset))
  {
    var hi, lo := U16(data, offset), U16(data, offset + 2);
    assert (0x10000 * hi + lo) / 0x10000 == hi && (0x10000 * hi + lo) % 0x10000 == lo;
    U16Octets(data, offset);
    U16Octets(data, offset + 2);
    assert data[offset..offset + 4] == data[offset..offset + 2] + data[offset + 2..offset + 4];
  }

  /** The lowest bits of a number, most significant first. */
  function BitsOf(n: nat, width: nat): (bits: seq<bool>)
    ensures |bits| == width
  {
    if width == 0 then [] else BitsOf(n / 2, width - 1) + [n % 2 == 1]
  }

  function ByteBits(b: byte): (bits: seq<bool>)
    ensures |bits| == 8
  {
    BitsOf(b, 8)
  }

  function Bits(data: seq<byte>): (bits: seq<bool>)
    ensures |bits| == 8 * |data|
  {
    if data == [] then [] else ByteBits(data[0]) + Bits(data[1..])
  }

  /** The number a bit string spells, most significant bit first. */
  function Value(bits: seq<bool>): nat {
    if bits == [] then 0
    else 2 * Value(bits[..|bits| - 1]) + (if bits[|bits| - 1] then 1 else 0)
  }

  lemma {:induction false} BitsConcat(a: seq<byte>, b: seq<byte>)
    ensures Bits(a + b) == Bits(a) + Bits(b)
  {
    if a == [] {
      assert a + b == b;
    } else {
      assert (a + b)[1..] == a[1..] + b;
      BitsConcat(a[1..], b);
    }
  }

  function Pow2(n: nat): (r: nat)
    ensures r > 0
  {
    if n == 0 then 1 else 2 * Pow2(n - 1)
  }

  lemma {:induction false} ValueBitsOf(a: seq<bool>, n: nat, width: nat)
    requires n < Pow2(width)
    ensures Value(a + BitsOf(n, width)) == Value(a) * Pow2(width) + n
  {
    var bits := BitsOf(n, width);
    if width == 0 {
      assert a + bits == a;
    } else {
      ValueBitsOf(a, n / 2, width - 1);
      assert (a + bits)[..|a + bits| - 1] == a + BitsOf(n / 2, width - 1);
      DoubleProduct(Value(a), Pow2(width - 1));
    }
  }

  lemma DoubleProduct(x: nat, y: nat)
    ensures x * (2 * y) == 2 * (x * y)
  {
  }

  lemma ValueByte(a: seq<bool>, b: byte)
    ensures Value(a + ByteBits(b)) == 256 * Value(a) + b
  {
    assert Pow2(4) == 16;
    assert Pow2(8) == 256;
    ValueBitsOf(a, b, 8);
  }

  lemma ByteBitsInjective(a: byte, b: byte)
    requires ByteBits(a) == ByteBits(b)
    ensures a == b
  {
    ValueByte([], a);
    ValueByte([], b);
  }

  lemma {:induction false} BitsInjective(a: seq<byte>, b: seq<byte>)
    requires |a| == |b| && Bits(a) == Bits(b)
    ensures a == b
  {
    if a != [] {
      assert ByteBits(a[0]) == Bits(a)[..8] && ByteBits(b[0]) == Bits(b)[..8];
      ByteBitsInjective(a[0], b[0]);
      assert Bits(a[1..]) == Bits(a)[8..] && Bits(b[1..]) == Bits(b)[8..];
      BitsInjective(a[1..], b[1..]);
      assert a == [a[0]] + a[1..] && b == [b[0]] + b[1..];
    }
  }

  lemma {:induction false} ValueInjective(a: seq<bool>, b: seq<bool>)
    requires |a| == |b| && Value(a) == Value(b)
    ensures a == b
  {
    if a != [] {
      var n := |a| - 1;
      ValueInjective(a[..n], b[..n]);
      assert a == a[..n] + [a[n]] && b == b[..n] + [b[n]];
    }
  }

  lemma ValueWord(hi: byte, lo: byte)
    ensures Value(Bits([hi, lo])) == 256 * hi + lo
  {
    assert [hi, lo][1..] == [lo] && [lo][1..] == [];
    assert Bits([hi, lo]) == [] + ByteBits(hi) + ByteBits(lo);
    ValueByte([], hi);
    ValueByte([] + ByteBits(hi), lo);
  }
}
