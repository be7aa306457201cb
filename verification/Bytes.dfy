// Bytes and their bits: the first bit of a byte is its least-significant bit.
module Bytes {
  import opened BitVectors

  type Byte = b: nat | b < 256

  function ByteBits(v: nat): (r: Bits)
    ensures |r| == 8
  {
    FromInt(v, 8)
  }

  function ByteOf(b: Bits): Byte
    requires |b| == 8
  {
    ByteBound(b);
    Value(b)
  }

  lemma ByteBound(b: Bits)
    requires |b| == 8
    ensures Value(b) < 256
  {
    ValueBelow(b);
    assert Pow2(8) == 256;
  }

  function BytesBits(bytes: seq<Byte>): (r: Bits)
    ensures |r| == 8 * |bytes|
  {
    if |bytes| == 0 then [] else ByteBits(bytes[0]) + BytesBits(bytes[1..])
  }

  // The n bytes at the start of a bit string.
  function BitsBytes(bits: Bits, n: nat): (r: seq<Byte>)
    requires |bits| >= 8 * n
    ensures |r| == n
  {
    seq(n, i requires 0 <= i < n => ByteOf(bits[8 * i..8 * i + 8]))
  }

  // The ^ of two bytes.
  function XorByte(a: Byte, b: Byte): Byte
  {
    ByteOf(Xor(ByteBits(a), ByteBits(b)))
  }

  lemma ByteRoundTrip(v: Byte)
    ensures ByteOf(ByteBits(v)) == v
  {
    assert Pow2(8) == 256;
    ValueFromInt(v, 8);
  }

  lemma BitsRoundTrip(b: Bits)
    requires |b| == 8
    ensures ByteBits(ByteOf(b)) == b
  {
    FromIntValue(b);
  }

  lemma {:induction false} BytesBitsAt(bytes: seq<Byte>, i: nat)
    requires i < |bytes|
    ensures BytesBits(bytes)[8 * i..8 * i + 8] == ByteBits(bytes[i])
  {
    hide ByteBits;
    if i > 0 {
      BytesBitsAt(bytes[1..], i - 1);
      assert BytesBits(bytes)[8 * i..8 * i + 8] == BytesBits(bytes[1..])[8 * i - 8..8 * i];
    }
  }

  lemma BytesBitsUnfold(a: seq<Byte>)
    ensures BytesBits(a) == if |a| == 0 then [] else ByteBits(a[0]) + BytesBits(a[1..])
  {
  }

  lemma {:induction false} BytesBitsConcat(a: seq<Byte>, b: seq<Byte>)
    ensures BytesBits(a + b) == BytesBits(a) + BytesBits(b)
  {
    hide ByteBits, BytesBits;
    BytesBitsUnfold(a);
    if |a| == 0 {
      assert a + b == b;
    } else {
      BytesBitsConcat(a[1..], b);
      BytesBitsUnfold(a + b);
      assert (a + b)[1..] == a[1..] + b;
      assert ByteBits(a[0]) + (BytesBits(a[1..]) + BytesBits(b)) == ByteBits(a[0]) + BytesBits(a[1..]) + BytesBits(b);
    }
  }

  lemma BytesBitsSlice(bytes: seq<Byte>, i: nat, j: nat)
    requires i <= j <= |bytes|
    ensures BytesBits(bytes[i..j]) == BytesBits(bytes)[8 * i..8 * j]
  {
    hide BytesBits;
    assert bytes == bytes[..i] + bytes[i..j] + bytes[j..];
    BytesBitsConcat(bytes[..i] + bytes[i..j], bytes[j..]);
    BytesBitsConcat(bytes[..i], bytes[i..j]);
  }

  // Byte strings and bit strings of a multiple of eight bits correspond one to one.
  lemma BytesRoundTrip(bytes: seq<Byte>)
    ensures BitsBytes(BytesBits(bytes), |bytes|) == bytes
  {
    hide BytesBits, ByteBits, ByteOf;
    forall i | 0 <= i < |bytes|
      ensures BitsBytes(BytesBits(bytes), |bytes|)[i] == bytes[i]
    {
      BytesBitsAt(bytes, i);
      ByteRoundTrip(bytes[i]);
    }
  }

  lemma {:induction false} BitStringsRoundTrip(bits: Bits, n: nat)
    requires |bits| == 8 * n
    ensures BytesBits(BitsBytes(bits, n)) == bits
    decreases n
  {
    hide ByteOf, ByteBits;
    if n > 0 {
      BitStringsRoundTrip(bits[8..], n - 1);
      BitsRoundTrip(bits[..8]);
      forall i | 0 <= i < n - 1
        ensures bits[8..][8 * i..8 * i + 8] == bits[8 * (i + 1)..8 * (i + 1) + 8]
      {
      }
      assert BitsBytes(bits, n)[1..] == BitsBytes(bits[8..], n - 1);
    }
  }

  lemma {:induction false} BytesBitsXor(a: seq<Byte>, b: seq<Byte>)
    requires |a| == |b|
    ensures BytesBits(seq(|a|, i requires 0 <= i < |a| => XorByte(a[i], b[i]))) == Xor(BytesBits(a), BytesBits(b))
  {
    hide ByteBits, ByteOf;
    if |a| > 0 {
      BytesBitsXor(a[1..], b[1..]);
      BitsRoundTrip(Xor(ByteBits(a[0]), ByteBits(b[0])));
      assert seq(|a|, i requires 0 <= i < |a| => XorByte(a[i], b[i]))[1..]
          == seq(|a[1..]|, i requires 0 <= i < |a[1..]| => XorByte(a[1..][i], b[1..][i]));
    }
  }

  // ------------------------------------------------------------ 32-bit words

  // A byte in the low bits of a word.
  function Extend(b: Byte): Word32
  {
    ByteBits(b) + Zeros(24)
  }

  lemma PackedByte(b: seq<Byte>, v: Byte, i: nat)
    requires |b| == i < 4
    ensures Or(BytesBits(b) + Zeros(32 - 8 * i), Shl(Extend(v), 8 * i)) == BytesBits(b + [v]) + Zeros(24 - 8 * i)
  {
    hide BytesBits, ByteBits;
    BytesBitsConcat(b, [v]);
    BytesBitsUnfold([v]);
    BytesBitsUnfold([]);
    assert [v][1..] == [];
    assert BytesBits([v]) == ByteBits(v);
  }

  lemma FourBytes(b: seq<Byte>)
    requires |b| == 4
    ensures BytesBits(b) == Or(Or(Or(Extend(b[0]), Shl(Extend(b[1]), 8)), Shl(Extend(b[2]), 16)), Shl(Extend(b[3]), 24))
  {
    hide ByteBits;
    assert BytesBits(b[2..]) == ByteBits(b[2]) + ByteBits(b[3]) by {
      assert BytesBits(b[2..][1..]) == ByteBits(b[3]);
    }
    assert b[1..][1..] == b[2..];
    assert BytesBits(b) == ByteBits(b[0]) + ByteBits(b[1]) + ByteBits(b[2]) + ByteBits(b[3]);
  }
}
