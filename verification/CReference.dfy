// The portable C implementation of Ascon-AEAD128: a state of five words
// updated in place, and byte arrays that may be shared between arguments.
module CReference {
  import opened BitVectors
  import opened Bytes
  import opened Permutation
  import opened Aead
  import opened GoldenModel
  import ParsePad
  import Results
  import Sponge

  // a with the bytes b from position at on.
  function Overwrite(a: seq<Byte>, at: nat, b: seq<Byte>): (r: seq<Byte>)
    requires at + |b| <= |a|
    ensures |r| == |a|
    ensures forall i {:trigger r[i]} :: 0 <= i < |a| ==> r[i] == if at <= i < at + |b| then b[i - at] else a[i]
  {
    seq(|a|, i requires 0 <= i < |a| => if at <= i < at + |b| then b[i - at] else a[i])
  }

  // ------------------------------------------------------ words and arrays

  lemma OredByte(bytes: seq<Byte>, i: nat)
    requires i < |bytes| && i < 8
    ensures Or(BytesBits(bytes[..i]) + Zeros(64 - 8 * i), Shl(ByteBits(bytes[i]) + Zeros(56), 8 * i))
         == BytesBits(bytes[..i + 1]) + Zeros(56 - 8 * i)
  {
    hide ByteBits, BytesBits;
    assert bytes[..i + 1] == bytes[..i] + [bytes[i]];
    BytesBitsConcat(bytes[..i], [bytes[i]]);
    BytesBitsUnfold([bytes[i]]);
    BytesBitsUnfold([]);
    assert [bytes[i]][1..] == [];
    assert BytesBits([bytes[i]]) == ByteBits(bytes[i]);
  }

  method Load64(src: array<Byte>, at: nat) returns (value: Word)
    requires at + 8 <= src.Length
    ensures value == BytesBits(src[at..at + 8])
  {
    hide ByteBits, BytesBits, Or, Shl;
    ghost var bytes := src[at..at + 8];
    BytesBitsUnfold([]);
    assert bytes[..0] == [];
    assert Zeros(64) == [] + Zeros(64);
    value := Zeros(64);
    var i := 0;
    while i < 8
      invariant 0 <= i <= 8
      invariant value == BytesBits(bytes[..i]) + Zeros(64 - 8 * i)
    {
      OredByte(bytes, i);
      value := Or(value, Shl(ByteBits(src[at + i]) + Zeros(56), 8 * i));
      i := i + 1;
    }
    assert bytes[..8] == bytes;
  }

  method Store64(dst: array<Byte>, at: nat, value: Word)
    requires at + 8 <= dst.Length
    modifies dst
    ensures dst[..] == Overwrite(old(dst[..]), at, BitsBytes(value, 8))
  {
    hide ByteOf, Shr;
    var i := 0;
    while i < 8
      invariant 0 <= i <= 8
      invariant forall k :: 0 <= k < dst.Length ==>
                  dst[k] == if at <= k < at + i then BitsBytes(value, 8)[k - at] else old(dst[k])
    {
      ShiftedByte(value, i);
      dst[at + i] := ByteOf(Shr(value, 8 * i)[..8]);
      i := i + 1;
    }
  }

  lemma ShiftedByte(value: Word, i: nat)
    requires i < 8
    ensures Shr(value, 8 * i)[..8] == value[8 * i..8 * i + 8]
  {
  }

  method CopyBytes(dst: array<Byte>, at: nat, src: array<Byte>, from: nat, n: nat)
    requires dst != src && at + n <= dst.Length && from + n <= src.Length
    modifies dst
    ensures dst[..] == Overwrite(old(dst[..]), at, src[from..from + n])
  {
    var i := 0;
    while i < n
      invariant 0 <= i <= n
      invariant forall k :: 0 <= k < dst.Length ==>
                  dst[k] == if at <= k < at + i then src[from + k - at] else old(dst[k])
    {
      dst[at + i] := src[from + i];
      i := i + 1;
    }
  }

  method ClearBytes(dst: array<Byte>, n: nat)
    requires n <= dst.Length
    modifies dst
    ensures dst[..] == Overwrite(old(dst[..]), 0, seq(n, _ => 0))
  {
    var i := 0;
    while i < n
      invariant 0 <= i <= n
      invariant forall k :: 0 <= k < dst.Length ==> dst[k] == if k < i then 0 else old(dst[k])
    {
      dst[i] := 0;
      i := i + 1;
    }
  }

  method MakePaddedBlock(block: array<Byte>, data: array?<Byte>, at: nat, len: nat)
    requires block.Length == 16 && len < 16 && data != block
    requires len > 0 ==> data != null && at + len <= data.Length
    modifies block
    ensures ParsePad.PadBytes(if len > 0 then old(data[at..at + len]) else [], 16) == Results.Ok(block[..])
  {
    hide XorByte;
    ghost var d := if len > 0 then data[at..at + len] else [];
    ClearBytes(block, 16);
    if len > 0 && data != null {
      CopyBytes(block, 0, data, at, len);
    }
    FlipZero();
    block[len] := XorByte(block[len], 1);
    assert block[..] == d + [1] + seq(16 - len - 1, _ => 0);
  }

  lemma FlipZero()
    ensures XorByte(0, 1) == 1
  {
    ParsePad.ByteZero();
    ByteRoundTrip(1);
    assert Xor(ByteBits(0), ByteBits(1)) == ByteBits(1);
  }

  // ------------------------------------------------------------- the state

  class AsconState {
    var x0: Word
    var x1: Word
    var x2: Word
    var x3: Word
    var x4: Word

    function Words(): State
      reads this
    {
      x0 + x1 + x2 + x3 + x4
    }

    constructor ()
    {
      x0, x1, x2, x3, x4 := Zeros(64), Zeros(64), Zeros(64), Zeros(64), Zeros(64);
    }

    method AddConstant(rounds: nat, roundIndex: nat)
      requires roundIndex < rounds <= 16
      modifies this
      ensures Words() == PC(old(Words()), 16 - rounds + roundIndex)
    {
      ConstantWord(Words(), 16 - rounds + roundIndex);
      WordsOfSum(x0, x1, x2, x3, x4);
      x2 := Xor(x2, RoundConstant(16 - rounds + roundIndex));
    }

    method Substitute()
      modifies this
      ensures Words() == PS(old(Words()))
    {
      WordsOfSum(x0, x1, x2, x3, x4);
      var y0 := Xor(Xor(Xor(Xor(Xor(Xor(And(x4, x1), x3), And(x2, x1)), x2), And(x1, x0)), x1), x0);
      var y1 := Xor(Xor(Xor(Xor(Xor(Xor(Xor(x4, And(x3, x2)), And(x3, x1)), x3), And(x2, x1)), x2), x1), x0);
      var y2 := Xor(Xor(Xor(Xor(And(x4, x3), x4), x2), x1), Ones(64));
      var y3 := Xor(Xor(Xor(Xor(Xor(Xor(And(x4, x0), x4), And(x3, x0)), x3), x2), x1), x0);
      var y4 := Xor(Xor(Xor(Xor(And(x4, x1), x4), x3), And(x1, x0)), x1);
      x0, x1, x2, x3, x4 := y0, y1, y2, y3, y4;
    }

    method Diffuse()
      modifies this
      ensures Words() == PL(old(Words()))
    {
      hide Sigma, Rotr;
      WordsOfSum(x0, x1, x2, x3, x4);
      SigmaOfRotations(x0, 19, 28);
      SigmaOfRotations(x1, 61, 39);
      SigmaOfRotations(x2, 1, 6);
      SigmaOfRotations(x3, 10, 17);
      SigmaOfRotations(x4, 7, 41);
      x0 := Xor(x0, Xor(Rotr(x0, 19), Rotr(x0, 28)));
      x1 := Xor(x1, Xor(Rotr(x1, 61), Rotr(x1, 39)));
      x2 := Xor(x2, Xor(Rotr(x2, 1), Rotr(x2, 6)));
      x3 := Xor(x3, Xor(Rotr(x3, 10), Rotr(x3, 17)));
      x4 := Xor(x4, Xor(Rotr(x4, 7), Rotr(x4, 41)));
    }

    method Permute(rounds: nat)
      requires rounds <= 16
      modifies this
      ensures Words() == Permutation.Permute(old(Words()), rounds)
    {
      hide PC, PS, PL, Words;
      var roundIndex := 0;
      while roundIndex < rounds
        invariant 0 <= roundIndex <= rounds
        invariant Words() == FirstRounds(old(Words()), 16 - rounds, roundIndex)
      {
        AddConstant(rounds, roundIndex);
        Substitute();
        Diffuse();
        roundIndex := roundIndex + 1;
      }
      FirstThenRest(old(Words()), 16 - rounds, rounds);
    }
  }

  lemma ConstantWord(s: State, index: nat)
    requires index < 16
    ensures PC(s, index) == Word0(s) + Word1(s) + Xor(Word2(s), RoundConstant(index)) + Word3(s) + Word4(s)
  {
  }

  lemma SigmaOfRotations(x: Word, a: nat, b: nat)
    requires a < 64 && b < 64
    ensures Xor(x, Xor(Rotr(x, a), Rotr(x, b))) == Sigma(x, a, b)
  {
  }

  // ------------------------------------------------------------- the rate

  method RateToBytes(s: AsconState, out: array<Byte>)
    requires out.Length == 16
    modifies out
    ensures out[..] == RateBytes(s.Words(), 16)
  {
    hide ByteOf;
    WordsOfSum(s.x0, s.x1, s.x2, s.x3, s.x4);
    Store64(out, 0, s.x0);
    Store64(out, 8, s.x1);
    StoredRate(s.Words());
  }

  lemma StoredRate(s: State)
    ensures RateBytes(s, 16) == BitsBytes(Word0(s), 8) + BitsBytes(Word1(s), 8)
  {
    hide ByteOf;
    forall i | 0 <= i < 16
      ensures RateBytes(s, 16)[i] == (BitsBytes(Word0(s), 8) + BitsBytes(Word1(s), 8))[i]
    {
      if i < 8 {
        assert Word0(s)[8 * i..8 * i + 8] == s[8 * i..8 * i + 8];
      } else {
        HighByte(s, i - 8);
      }
    }
  }

  lemma HighByte(s: State, j: nat)
    requires j < 8
    ensures Word1(s)[8 * j..8 * j + 8] == s[8 * (8 + j)..8 * (8 + j) + 8]
  {
  }

  method BytesToRate(s: AsconState, src: array<Byte>)
    requires src.Length == 16
    modifies s
    ensures s.Words() == ReplaceRate(old(s.Words()), src[..])
  {
    LoadedRate(s.Words(), src[..], src[0..8], src[8..16]);
    WordsOfSum(s.x0, s.x1, s.x2, s.x3, s.x4);
    s.x0 := Load64(src, 0);
    s.x1 := Load64(src, 8);
  }

  lemma LoadedRate(s: State, block: seq<Byte>, low: seq<Byte>, high: seq<Byte>)
    requires |low| == 8 && |high| == 8 && block == low + high
    ensures ReplaceRate(s, block) == BytesBits(low) + BytesBits(high) + Word2(s) + Word3(s) + Word4(s)
    ensures XorRate(s, block)
            == Xor(Word0(s), BytesBits(low)) + Xor(Word1(s), BytesBits(high)) + Word2(s) + Word3(s) + Word4(s)
  {
    hide BytesBits, XorRate;
    BytesBitsConcat(low, high);
    XorRateIsXor(s, block);
  }

  method XorRateBlock(s: AsconState, block: array<Byte>, at: nat)
    requires at + 16 <= block.Length
    modifies s
    ensures s.Words() == XorRate(old(s.Words()), block[at..at + 16])
  {
    LoadedRate(s.Words(), block[at..at + 16], block[at..at + 8], block[at + 8..at + 16]);
    WordsOfSum(s.x0, s.x1, s.x2, s.x3, s.x4);
    var low := Load64(block, at);
    s.x0 := Xor(s.x0, low);
    var high := Load64(block, at + 8);
    s.x1 := Xor(s.x1, high);
  }

  // ---------------------------------------------------------- the phases

  lemma KeyWords(s: State, key: seq<Byte>)
    requires |key| == 16
    ensures var k0, k1 := BytesBits(key[0..8]), BytesBits(key[8..16]);
            && XorAt(s, 192, BytesBits(key)) == Word0(s) + Word1(s) + Word2(s) + Xor(Word3(s), k0) + Xor(Word4(s), k1)
            && XorAt(s, 128, BytesBits(key)) == Word0(s) + Word1(s) + Xor(Word2(s), k0) + Xor(Word3(s), k1) + Word4(s)
            && Xor(s[192..], BytesBits(key)) == Xor(Word3(s), k0) + Xor(Word4(s), k1)
  {
    hide BytesBits;
    assert key == key[0..8] + key[8..16];
    BytesBitsConcat(key[0..8], key[8..16]);
  }

  lemma InitialImage(key: seq<Byte>, nonce: seq<Byte>)
    requires |key| == 16 && |nonce| == 16
    ensures NIST_AEAD128.iv + BytesBits(key) + BytesBits(nonce)
         == NIST_AEAD128.iv + BytesBits(key[0..8]) + BytesBits(key[8..16]) + BytesBits(nonce[0..8])
           + BytesBits(nonce[8..16])
  {
    hide BytesBits;
    assert key == key[0..8] + key[8..16] && nonce == nonce[0..8] + nonce[8..16];
    BytesBitsConcat(key[0..8], key[8..16]);
    BytesBitsConcat(nonce[0..8], nonce[8..16]);
  }

  method InitializeState(s: AsconState, key: array<Byte>, nonce: array<Byte>)
    requires key.Length >= 16 && nonce.Length >= 16
    modifies s
    ensures s.Words() == Initialize(NIST_AEAD128, BytesBits(key[..16]), BytesBits(nonce[..16]))
  {
    hide BytesBits, Permutation.Permute, XorAt, Xor;
    var k0 := Load64(key, 0);
    var k1 := Load64(key, 8);
    var n0 := Load64(nonce, 0);
    var n1 := Load64(nonce, 8);
    InitialImage(key[..16], nonce[..16]);
    assert key[..16][0..8] == key[0..8] && key[..16][8..16] == key[8..16];
    assert nonce[..16][0..8] == nonce[0..8] && nonce[..16][8..16] == nonce[8..16];
    s.x0, s.x1, s.x2, s.x3, s.x4 := NIST_AEAD128.iv, k0, k1, n0, n1;
    s.Permute(12);
    KeyWords(s.Words(), key[..16]);
    WordsOfSum(s.x0, s.x1, s.x2, s.x3, s.x4);
    s.x3 := Xor(s.x3, k0);
    s.x4 := Xor(s.x4, k1);
  }

  method AbsorbBlockAt(s: AsconState, data: array<Byte>, at: nat)
    requires at + 16 <= data.Length
    modifies s
    ensures s.Words() == Permutation.Permute(XorRate(old(s.Words()), data[at..at + 16]), 8)
  {
    hide Permutation.Permute, XorRate, AsconState.Words;
    XorRateBlock(s, data, at);
    s.Permute(8);
  }

  method AbsorbLastBlock(s: AsconState, data: array?<Byte>, at: nat, len: nat)
    requires len < 16 && (len > 0 ==> data != null && at + len <= data.Length)
    modifies s
    ensures var final := if len > 0 then data[at..at + len] else [];
            s.Words() == Permutation.Permute(XorRate(old(s.Words()), ParsePad.PadBytes(final, 16).value), 8)
  {
    hide Permutation.Permute, XorRate, AsconState.Words;
    var block := new Byte[16];
    MakePaddedBlock(block, data, at, len);
    assert block[0..16] == block[..];
    AbsorbBlockAt(s, block, 0);
  }

  method Separate(s: AsconState)
    modifies s
    ensures s.Words() == DomainSeparate(old(s.Words()))
  {
    WordsOfSum(s.x0, s.x1, s.x2, s.x3, s.x4);
    s.x4 := Xor(s.x4, Zeros(63) + [true]);
  }

  function Argument(a: array?<Byte>, n: nat): seq<Byte>
    requires n > 0 ==> a != null && n <= a.Length
    reads a
  {
    if n > 0 then a[..n] else []
  }

  method ProcessAssociated(s: AsconState, ad: array?<Byte>, adLen: nat)
    requires adLen > 0 ==> ad != null && adLen <= ad.Length
    modifies s
    ensures s.Words() == ProcessAd(NIST_AEAD128, old(s.Words()), BytesBits(Argument(ad, adLen)))
  {
    hide BytesBits, Permutation.Permute, Sponge.Absorb, XorRate, AsconState.Words;
    ghost var data, s0 := Argument(ad, adLen), s.Words();
    if adLen > 0 {
      var offset := 0;
      assert data[0..] == data;
      while adLen - offset >= 16
        invariant 0 <= offset <= adLen
        invariant Sponge.Absorb(s.Words(), BytesBits(data[offset..]), 128, 8, 8)
                  == Sponge.Absorb(s0, BytesBits(data), 128, 8, 8)
      {
        assert data[offset..] == ad[offset..offset + 16] + data[offset + 16..];
        AbsorbBlock(s.Words(), ad[offset..offset + 16], data[offset + 16..], 16, 8, 8);
        AbsorbBlockAt(s, ad, offset);
        offset := offset + 16;
      }
      assert data[offset..] == if adLen - offset > 0 then ad[offset..adLen] else [];
      AbsorbFinal(s.Words(), data[offset..], 16, 8, 8);
      AbsorbLastBlock(s, ad, offset, adLen - offset);
    }
    BytesBitsUnfold([]);
    Separate(s);
  }

  method FinalizeTagInto(s: AsconState, key: array<Byte>, tag: array<Byte>)
    requires key.Length >= 16 && tag.Length >= 16
    modifies s, tag
    ensures BytesBits(tag[..16]) == Finalize(NIST_AEAD128, old(s.Words()), BytesBits(old(key[..16])))
    ensures tag[16..] == old(tag[16..])
  {
    hide BytesBits, Permutation.Permute, XorAt, Xor, Overwrite;
    ghost var k := key[..16];
    assert key[..16][0..8] == key[0..8] && key[..16][8..16] == key[8..16];
    var k0 := Load64(key, 0);
    var k1 := Load64(key, 8);
    KeyWords(s.Words(), k);
    WordsOfSum(s.x0, s.x1, s.x2, s.x3, s.x4);
    s.x2 := Xor(s.x2, k0);
    s.x3 := Xor(s.x3, k1);
    s.Permute(12);
    KeyWords(s.Words(), k);
    WordsOfSum(s.x0, s.x1, s.x2, s.x3, s.x4);
    StoreTag(tag, Xor(s.x3, k0), Xor(s.x4, k1));
  }

  method StoreTag(tag: array<Byte>, low: Word, high: Word)
    requires tag.Length >= 16
    modifies tag
    ensures BytesBits(tag[..16]) == low + high && tag[16..] == old(tag[16..])
  {
    hide ByteOf, BytesBits;
    Store64(tag, 0, low);
    Store64(tag, 8, high);
    assert tag[..16] == BitsBytes(low, 8) + BitsBytes(high, 8);
    BytesBitsConcat(BitsBytes(low, 8), BitsBytes(high, 8));
    BitStringsRoundTrip(low, 8);
    BitStringsRoundTrip(high, 8);
  }

  function OrByte(a: Byte, b: Byte): Byte
  {
    ByteOf(Or(ByteBits(a), ByteBits(b)))
  }

  lemma OrXorZero(diff: Byte, a: Byte, b: Byte)
    ensures OrByte(diff, XorByte(a, b)) == 0 <==> diff == 0 && a == b
  {
    hide ByteBits, ByteOf;
    var x := Xor(ByteBits(a), ByteBits(b));
    BitsRoundTrip(x);
    BitsRoundTrip(Or(ByteBits(diff), ByteBits(XorByte(a, b))));
    ZeroByte(diff);
    ZeroByte(OrByte(diff, XorByte(a, b)));
    ByteRoundTrip(a);
    ByteRoundTrip(b);
    if OrByte(diff, XorByte(a, b)) == 0 {
      forall k | 0 <= k < 8 ensures !ByteBits(diff)[k] && ByteBits(a)[k] == ByteBits(b)[k] {
        assert !Or(ByteBits(diff), x)[k];
        assert x[k] == (ByteBits(a)[k] != ByteBits(b)[k]);
      }
      assert ByteBits(a) == ByteBits(b);
      assert ByteBits(diff) == Zeros(8);
    }
    if diff == 0 && a == b {
      assert Or(ByteBits(diff), x) == Zeros(8);
    }
  }

  lemma ZeroByte(v: Byte)
    ensures v == 0 <==> ByteBits(v) == Zeros(8)
  {
    ParsePad.ByteZero();
    ByteRoundTrip(v);
    ByteRoundTrip(0);
  }

  // Every byte is looked at, and the differences are collected.
  method ConstantTimeEqual(left: array<Byte>, right: array<Byte>) returns (equal: bool)
    requires left.Length >= 16 && right.Length >= 16
    ensures equal <==> left[..16] == right[..16]
  {
    hide OrByte, XorByte;
    var diff: Byte := 0;
    var i := 0;
    while i < 16
      invariant 0 <= i <= 16
      invariant diff == 0 <==> left[..i] == right[..i]
    {
      OrXorZero(diff, left[i], right[i]);
      assert left[..i + 1] == left[..i] + [left[i]] && right[..i + 1] == right[..i] + [right[i]];
      diff := OrByte(diff, XorByte(left[i], right[i]));
      i := i + 1;
    }
    equal := diff == 0;
  }

  // ------------------------------------------------------------ encryption

  const NIST := ByteConfig(16, 16, 8, [0x01, 0x00, 0x8C, 0x80, 0x00, 0x10, 0x00, 0x00])

  lemma NistSpec()
    ensures NIST.Valid() && NIST.Spec() == NIST_AEAD128
  {
  }

  // The remaining text block by block, source and destination possibly the
  // same array: each block is read before it is overwritten.
  method EncryptBlockAt(s: AsconState, plain: array<Byte>, cipher: array<Byte>, offset: nat)
    requires offset + 16 <= plain.Length && offset + 16 <= cipher.Length
    modifies s, cipher
    ensures var t := XorRate(old(s.Words()), old(plain[offset..offset + 16]));
            && s.Words() == Permutation.Permute(t, 8)
            && cipher[..] == Overwrite(old(cipher[..]), offset, RateBytes(t, 16))
  {
    hide Permutation.Permute, XorRate, AsconState.Words, RateBytes;
    var rate := new Byte[16];
    XorRateBlock(s, plain, offset);
    RateToBytes(s, rate);
    assert rate[0..16] == rate[..];
    CopyBytes(cipher, offset, rate, 0, 16);
    s.Permute(8);
  }

  method EncryptLast(s: AsconState, plain: array?<Byte>, cipher: array<Byte>, offset: nat, len: nat)
    requires len < 16 && offset + len <= cipher.Length
    requires len > 0 ==> plain != null && offset + len <= plain.Length
    modifies s, cipher
    ensures var final := if len > 0 then old(plain[offset..offset + len]) else [];
            var t := XorRate(old(s.Words()), ParsePad.PadBytes(final, 16).value);
            && s.Words() == t
            && cipher[..] == Overwrite(old(cipher[..]), offset, RateBytes(t, 16)[..len])
  {
    hide Permutation.Permute, XorRate, AsconState.Words, RateBytes;
    var finalBlock, rate := new Byte[16], new Byte[16];
    MakePaddedBlock(finalBlock, plain, offset, len);
    assert finalBlock[0..16] == finalBlock[..];
    XorRateBlock(s, finalBlock, 0);
    RateToBytes(s, rate);
    assert rate[..][..len] == rate[0..len];
    if len > 0 {
      CopyBytes(cipher, offset, rate, 0, len);
    }
  }

  lemma RestOfText(data: seq<Byte>, offset: nat)
    requires offset <= |data|
    ensures |data| - offset >= 16 ==> data[offset..] == data[offset..offset + 16] + data[offset + 16..]
  {
  }

  // What a block puts out, and what it leaves in the rate: the ciphertext, which
  // is the output when encrypting and the input when decrypting.
  function Out(s: State, block: seq<Byte>): (r: seq<Byte>)
    requires |block| <= 16
    ensures |r| == |block|
  {
    XorBytes(RateBytes(s, 16)[..|block|], block)
  }

  function FullRate(decrypt: bool, s: State, block: seq<Byte>): State
    requires |block| == 16
  {
    ReplaceRate(s, if decrypt then block else Out(s, block))
  }

  function LastRate(decrypt: bool, s: State, final: seq<Byte>): State
    requires |final| < 16
  {
    ReplaceRate(s, FinalRate(RateBytes(s, 16), if decrypt then final else Out(s, final)))
  }

  lemma RateReplaced(s: State, block: seq<Byte>)
    requires |block| == 16
    ensures RateBytes(ReplaceRate(s, block), 16) == block
  {
    hide BytesBits, RateBytes;
    var t := ReplaceRate(s, block);
    RateBits(t, 16);
    assert t[..128] == BytesBits(block);
    BytesRoundTrip(block);
    BytesRoundTrip(RateBytes(t, 16));
  }

  lemma XoredRate(s: State, block: seq<Byte>)
    requires |block| == 16
    ensures XorRate(s, block) == FullRate(false, s, block) && RateBytes(XorRate(s, block), 16) == Out(s, block)
  {
    hide RateBytes, ReplaceRate, XorByte;
    RateReplaced(s, Out(s, block));
    assert RateBytes(s, 16)[..16] == RateBytes(s, 16);
  }

  lemma XorZero(v: Byte)
    ensures XorByte(v, 0) == v
  {
    hide ByteBits;
    ParsePad.ByteZero();
    ByteRoundTrip(v);
    assert Xor(ByteBits(v), Zeros(8)) == ByteBits(v);
  }

  lemma XoredPadding(s: State, final: seq<Byte>)
    requires |final| < 16
    ensures ParsePad.PadBytes(final, 16).Ok? && |ParsePad.PadBytes(final, 16).value| == 16
    ensures var t := XorRate(s, ParsePad.PadBytes(final, 16).value);
            t == LastRate(false, s, final) && RateBytes(t, 16)[..|final|] == Out(s, final)
  {
    hide RateBytes, ReplaceRate, XorByte;
    var rate, padded := RateBytes(s, 16), ParsePad.PadBytes(final, 16).value;
    var last := FinalRate(rate, Out(s, final));
    forall k | 0 <= k < 16 ensures XorByte(rate[k], padded[k]) == last[k] {
      XorZero(rate[k]);
    }
    assert XorBytes(rate, padded) == last;
    RateReplaced(s, last);
  }

  // With `done` written and the state at s, the rest of the data from `offset` on
  // completes what started in s0.
  ghost predicate Crypting(decrypt: bool, s0: State, s: State, data: seq<Byte>, offset: nat, done: seq<Byte>)
    requires offset <= |data|
  {
    var c := CryptText(NIST_AEAD128, decrypt, s, BytesBits(data[offset..]));
    CryptText(NIST_AEAD128, decrypt, s0, BytesBits(data)) == Crypt(c.state, BytesBits(done) + c.text)
  }

  lemma CryptingStarts(decrypt: bool, s: State, data: seq<Byte>)
    ensures Crypting(decrypt, s, s, data, 0, [])
  {
    hide BytesBits, CryptText;
    BytesBitsUnfold([]);
    assert data[0..] == data;
  }

  lemma CryptBlock(decrypt: bool, s: State, block: seq<Byte>, rest: seq<Byte>)
    requires |block| == 16
    ensures var c := CryptText(NIST_AEAD128, decrypt, Permutation.Permute(FullRate(decrypt, s, block), 8),
                               BytesBits(rest));
            CryptText(NIST_AEAD128, decrypt, s, BytesBits(block + rest))
              == Crypt(c.state, BytesBits(Out(s, block)) + c.text)
  {
    hide Permutation.Permute, BytesBits, EncryptText, DecryptText, RateBytes, ReplaceRate, XorRate, XorByte;
    NistSpec();
    if decrypt {
      DecryptBlock(NIST, s, block, rest);
      assert RateBytes(s, 16)[..16] == RateBytes(s, 16);
    } else {
      EncryptBlock(NIST, s, block, rest);
      XoredRate(s, block);
    }
  }

  lemma CryptingAdvances(decrypt: bool, s0: State, s: State, data: seq<Byte>, offset: nat, done: seq<Byte>)
    requires offset + 16 <= |data| && Crypting(decrypt, s0, s, data, offset, done)
    ensures var block := data[offset..offset + 16];
            Crypting(decrypt, s0, Permutation.Permute(FullRate(decrypt, s, block), 8), data, offset + 16,
                     done + Out(s, block))
  {
    hide Permutation.Permute, FullRate, Out, BytesBits, CryptText;
    RestOfText(data, offset);
    var block := data[offset..offset + 16];
    CryptBlock(decrypt, s, block, data[offset + 16..]);
    var out := Out(s, block);
    BytesBitsConcat(done, out);
    var c := CryptText(NIST_AEAD128, decrypt, Permutation.Permute(FullRate(decrypt, s, block), 8),
                       BytesBits(data[offset + 16..]));
    assert BytesBits(done) + (BytesBits(out) + c.text) == BytesBits(done) + BytesBits(out) + c.text;
  }

  lemma CryptFinal(decrypt: bool, s: State, final: seq<Byte>)
    requires |final| < 16
    ensures CryptText(NIST_AEAD128, decrypt, s, BytesBits(final))
         == Crypt(LastRate(decrypt, s, final), BytesBits(Out(s, final)))
  {
    hide BytesBits, EncryptText, DecryptText, RateBytes, ReplaceRate, XorRate, XorByte, FinalRate;
    NistSpec();
    if decrypt {
      DecryptFinal(NIST, s, final);
    } else {
      EncryptFinal(NIST, s, final);
      XoredPadding(s, final);
    }
  }

  lemma CryptingEnds(decrypt: bool, s0: State, s: State, data: seq<Byte>, offset: nat, done: seq<Byte>)
    requires offset <= |data| < offset + 16 && Crypting(decrypt, s0, s, data, offset, done)
    ensures CryptText(NIST_AEAD128, decrypt, s0, BytesBits(data))
         == Crypt(LastRate(decrypt, s, data[offset..]), BytesBits(done + Out(s, data[offset..])))
  {
    hide LastRate, Out, BytesBits, CryptText;
    CryptFinal(decrypt, s, data[offset..]);
    BytesBitsConcat(done, Out(s, data[offset..]));
  }

  lemma OverwriteParts(a: seq<Byte>, at: nat, b: seq<Byte>, limit: nat)
    requires at + |b| <= limit <= |a|
    ensures var r := Overwrite(a, at, b);
            r[..at + |b|] == a[..at] + b && r[at + |b|..limit] == a[at + |b|..limit] && r[limit..] == a[limit..]
  {
  }

  // One full block, seen from the loop: source and destination may coincide.
  method EncryptStep(s: AsconState, plain: array<Byte>, plainLen: nat, cipher: array<Byte>, offset: nat,
                     ghost data: seq<Byte>, ghost s0: State)
    requires offset + 16 <= plainLen == |data| && plainLen <= plain.Length && plainLen <= cipher.Length
    requires plain[offset..plainLen] == data[offset..] && Crypting(false, s0, s.Words(), data, offset, cipher[..offset])
    modifies s, cipher
    ensures plain[offset + 16..plainLen] == data[offset + 16..]
    ensures Crypting(false, s0, s.Words(), data, offset + 16, cipher[..offset + 16])
    ensures cipher[plainLen..] == old(cipher[plainLen..])
  {
    hide Permutation.Permute, XorRate, AsconState.Words, RateBytes, Crypting, Overwrite, FullRate, Out;
    ghost var before, source, block := cipher[..], plain[..], data[offset..offset + 16];
    BlockOfText(source, data, offset, plainLen);
    CryptingAdvances(false, s0, s.Words(), data, offset, cipher[..offset]);
    XoredRate(s.Words(), block);
    OverwriteParts(before, offset, Out(s.Words(), block), plainLen);
    EncryptBlockAt(s, plain, cipher, offset);
    assert plain[offset + 16..plainLen] == plain[..][offset + 16..plainLen] == source[offset + 16..plainLen];
    assert cipher[..offset + 16] == cipher[..][..offset + 16] && before[..offset] == old(cipher[..offset]);
    assert cipher[plainLen..] == cipher[..][plainLen..] && before[plainLen..] == old(cipher[plainLen..]);
  }

  lemma BlockOfText(a: seq<Byte>, data: seq<Byte>, offset: nat, len: nat)
    requires offset + 16 <= len == |data| && len <= |a| && a[offset..len] == data[offset..]
    ensures a[offset..offset + 16] == data[offset..offset + 16] && a[offset + 16..len] == data[offset + 16..]
  {
    assert a[offset..offset + 16] == a[offset..len][..16];
    assert a[offset + 16..len] == a[offset..len][16..];
  }

  method EncryptTextInto(s: AsconState, plain: array?<Byte>, plainLen: nat, cipher: array<Byte>)
    requires plainLen <= cipher.Length && (plainLen > 0 ==> plain != null && plainLen <= plain.Length)
    modifies s, cipher
    ensures EncryptText(NIST_AEAD128, old(s.Words()), BytesBits(old(Argument(plain, plainLen))))
         == Crypt(s.Words(), BytesBits(cipher[..plainLen]))
    ensures cipher[plainLen..] == old(cipher[plainLen..])
  {
    hide Permutation.Permute, XorRate, AsconState.Words, RateBytes, BytesBits, EncryptText, Crypting, Overwrite,
         LastRate, Out;
    ghost var data, s0 := Argument(plain, plainLen), s.Words();
    var offset := 0;
    assert cipher[..0] == [];
    assert plainLen > 0 ==> plain[0..plainLen] == data[0..];
    CryptingStarts(false, s0, data);
    while plainLen - offset >= 16
      invariant 0 <= offset <= plainLen
      invariant plainLen > 0 ==> plain[offset..plainLen] == data[offset..]
      invariant cipher[plainLen..] == old(cipher[plainLen..])
      invariant Crypting(false, s0, s.Words(), data, offset, cipher[..offset])
    {
      EncryptStep(s, plain, plainLen, cipher, offset, data, s0);
      offset := offset + 16;
    }
    var len := plainLen - offset;
    assert data[offset..] == if len > 0 then plain[offset..offset + len] else [];
    CryptingEnds(false, s0, s.Words(), data, offset, cipher[..offset]);
    XoredPadding(s.Words(), data[offset..]);
    OverwriteParts(cipher[..], offset, Out(s.Words(), data[offset..]), plainLen);
    EncryptLast(s, plain, cipher, offset, len);
    assert cipher[..plainLen] == cipher[..][..plainLen] && cipher[plainLen..] == cipher[..][plainLen..];
  }

  predicate BadArguments(key: array?<Byte>, nonce: array?<Byte>, ad: array?<Byte>, adLen: nat, input: array?<Byte>,
                         inputLen: nat, output: array?<Byte>)
  {
    key == null || nonce == null || output == null || (adLen > 0 && ad == null) || (inputLen > 0 && input == null)
  }

  // The caller's arrays are as long as the lengths say.
  predicate ArraysFit(key: array?<Byte>, nonce: array?<Byte>, ad: array?<Byte>, adLen: nat, input: array?<Byte>,
                      inputLen: nat, output: array?<Byte>)
  {
    && (key != null ==> key.Length >= 16) && (nonce != null ==> nonce.Length >= 16)
    && (ad != null ==> ad.Length >= adLen) && (input != null ==> input.Length >= inputLen)
    && (output != null ==> output.Length >= inputLen)
  }

  // The bytes that the key, nonce, associated data and text arguments hold.
  datatype Given = Given(key: seq<Byte>, nonce: seq<Byte>, ad: seq<Byte>, text: seq<Byte>) {
    predicate Fits(output: seq<Byte>)
    {
      |key| == 16 && |nonce| == 16 && |text| <= |output|
    }
  }

  // The standard on the bytes given.
  function Encrypted(g: Given): (r: Sealed)
    requires |g.key| == 16 && |g.nonce| == 16
    ensures |r.text| == 8 * |g.text| && |r.tag| == 128
  {
    Encrypt(NIST_AEAD128, BytesBits(g.key), BytesBits(g.nonce), BytesBits(g.ad), BytesBits(g.text))
  }

  function Decrypted(g: Given, tag: seq<Byte>): Opened
    requires |g.key| == 16 && |g.nonce| == 16
  {
    Decrypt(NIST_AEAD128, BytesBits(g.key), BytesBits(g.nonce), BytesBits(g.ad), BytesBits(g.text), BytesBits(tag))
  }

  function Arguments(key: array<Byte>, nonce: array<Byte>, ad: array?<Byte>, adLen: nat, input: array?<Byte>,
                     inputLen: nat, output: array<Byte>): (g: Given)
    requires ArraysFit(key, nonce, ad, adLen, input, inputLen, output)
    requires !BadArguments(key, nonce, ad, adLen, input, inputLen, output)
    reads key, nonce, ad, input
    ensures |g.key| == 16 && |g.nonce| == 16 && |g.text| <= output.Length
  {
    Given(key[..16], nonce[..16], Argument(ad, adLen), Argument(input, inputLen))
  }

  // The whole arrays after encryption. The key is read again after the text has
  // been written, and the tag is written last.
  datatype Written = Written(cipher: seq<Byte>, tag: seq<Byte>)

  function EncryptOutcome(keyShared: bool, tagShared: bool, g: Given, cipher: seq<Byte>, tag: seq<Byte>): (r: Written)
    requires g.Fits(cipher) && |tag| >= 16 && (keyShared ==> |cipher| >= 16) && (tagShared ==> tag == cipher)
    ensures |r.cipher| == |cipher| && |r.tag| == |tag|
  {
    hide EncryptText, Initialize, ProcessAd, Finalize, BytesBits, BitsBytes;
    var n := |g.text|;
    var s := ProcessAd(NIST_AEAD128, Initialize(NIST_AEAD128, BytesBits(g.key), BytesBits(g.nonce)), BytesBits(g.ad));
    var c := EncryptText(NIST_AEAD128, s, BytesBits(g.text));
    var written := BitsBytes(c.text, n) + cipher[n..];
    var t := Finalize(NIST_AEAD128, c.state, BytesBits(if keyShared then written[..16] else g.key));
    var tagged := BitsBytes(t, 16) + (if tagShared then written else tag)[16..];
    Written(if tagShared then tagged else written, tagged)
  }

  // With a ciphertext array of its own this is the encryption of the standard.
  lemma SeparateArraysEncrypt(g: Given, cipher: seq<Byte>, tag: seq<Byte>)
    requires g.Fits(cipher) && |tag| >= 16
    ensures var r := EncryptOutcome(false, false, g, cipher, tag);
            && Sealed(BytesBits(r.cipher[..|g.text|]), BytesBits(r.tag[..16])) == Encrypted(g)
            && r.cipher[|g.text|..] == cipher[|g.text|..] && r.tag[16..] == tag[16..]
  {
    hide EncryptText, Initialize, ProcessAd, Finalize, BytesBits, BitsBytes;
    var e := Encrypted(g);
    var r := EncryptOutcome(false, false, g, cipher, tag);
    BitStringsRoundTrip(e.text, |g.text|);
    BitStringsRoundTrip(e.tag, 16);
    assert r.cipher[..|g.text|] == BitsBytes(e.text, |g.text|) && r.tag[..16] == BitsBytes(e.tag, 16);
  }

  lemma WrittenBytes(a: seq<Byte>, before: seq<Byte>, text: Bits, n: nat)
    requires n <= |a| == |before| && BytesBits(a[..n]) == text && a[n..] == before[n..]
    ensures a == BitsBytes(text, n) + before[n..]
  {
    BytesRoundTrip(a[..n]);
  }

  // Every array may be shared with every other.
  method Encrypt128(key: array?<Byte>, nonce: array?<Byte>, ad: array?<Byte>, adLen: nat, plain: array?<Byte>,
                    plainLen: nat, cipher: array?<Byte>, tag: array?<Byte>) returns (status: int)
    requires ArraysFit(key, nonce, ad, adLen, plain, plainLen, cipher) && (tag != null ==> tag.Length >= 16)
    modifies cipher, tag
    ensures status == -1 || status == 0
    ensures status == 0 <==>
            && key != null && nonce != null && cipher != null && tag != null
            && (adLen == 0 || ad != null) && (plainLen == 0 || plain != null)
    ensures status == -1 && cipher != null ==> cipher[..] == old(cipher[..])
    ensures status == -1 && tag != null ==> tag[..] == old(tag[..])
    ensures status == 0 ==>
              Written(cipher[..], tag[..])
              == EncryptOutcome(cipher == key, cipher == tag,
                                old(Arguments(key, nonce, ad, adLen, plain, plainLen, cipher)),
                                old(cipher[..]), old(tag[..]))
    ensures status == 0 && cipher != key && cipher != tag ==>
              && Sealed(BytesBits(cipher[..plainLen]), BytesBits(tag[..16]))
                 == Encrypted(old(Arguments(key, nonce, ad, adLen, plain, plainLen, cipher)))
              && cipher[plainLen..] == old(cipher[plainLen..]) && tag[16..] == old(tag[16..])
  {
    hide Encrypted, EncryptOutcome, AsconState.Words, BytesBits, BitsBytes, EncryptText, Initialize, ProcessAd,
         Finalize;
    if BadArguments(key, nonce, ad, adLen, plain, plainLen, cipher) || tag == null {
      return -1;
    }
    ghost var given := Arguments(key, nonce, ad, adLen, plain, plainLen, cipher);
    SeparateArraysEncrypt(given, cipher[..], tag[..]);
    EncryptArrays(key, nonce, ad, adLen, plain, plainLen, cipher, tag);
    return 0;
  }

  method EncryptArrays(key: array<Byte>, nonce: array<Byte>, ad: array?<Byte>, adLen: nat, plain: array?<Byte>,
                       plainLen: nat, cipher: array<Byte>, tag: array<Byte>)
    requires ArraysFit(key, nonce, ad, adLen, plain, plainLen, cipher) && tag.Length >= 16
    requires !BadArguments(key, nonce, ad, adLen, plain, plainLen, cipher)
    modifies cipher, tag
    ensures Written(cipher[..], tag[..])
         == EncryptOutcome(cipher == key, cipher == tag, old(Arguments(key, nonce, ad, adLen, plain, plainLen, cipher)),
                           old(cipher[..]), old(tag[..]))
  {
    hide AsconState.Words, BytesBits, BitsBytes, EncryptText, Initialize, ProcessAd, Finalize;
    ghost var before := cipher[..];
    var s := new AsconState();
    InitializeState(s, key, nonce);
    ProcessAssociated(s, ad, adLen);
    EncryptTextInto(s, plain, plainLen, cipher);
    WrittenBytes(cipher[..], before, BytesBits(cipher[..plainLen]), plainLen);
    ghost var written, t := tag[..], Finalize(NIST_AEAD128, s.Words(), BytesBits(key[..16]));
    FinalizeTagInto(s, key, tag);
    WrittenBytes(tag[..], written, t, 16);
  }

  // ------------------------------------------------------------ decryption

  // Each plaintext byte is written before its ciphertext byte is read once more,
  // for the rate; in one array that second read finds the plaintext byte.
  method DecryptBlockAt(s: AsconState, cipher: array<Byte>, plain: array<Byte>, offset: nat)
    requires offset + 16 <= cipher.Length && offset + 16 <= plain.Length
    modifies s, plain
    ensures var block := old(cipher[offset..offset + 16]);
            && s.Words() == Permutation.Permute(FullRate(cipher != plain, old(s.Words()), block), 8)
            && plain[..] == Overwrite(old(plain[..]), offset, Out(old(s.Words()), block))
  {
    hide Permutation.Permute, AsconState.Words, RateBytes, ReplaceRate, XorByte;
    ghost var block := cipher[offset..offset + 16];
    ghost var out := Out(s.Words(), block);
    var rate, newRate := new Byte[16], new Byte[16];
    RateToBytes(s, rate);
    var i := 0;
    while i < 16
      invariant 0 <= i <= 16
      invariant s.Words() == old(s.Words()) && rate[..] == RateBytes(old(s.Words()), 16)
      invariant forall k :: i <= k < 16 ==> cipher[offset + k] == block[k]
      invariant forall k :: 0 <= k < i ==> newRate[k] == (if cipher == plain then out else block)[k]
      invariant forall k :: 0 <= k < plain.Length ==>
                  plain[k] == if offset <= k < offset + i then out[k - offset] else old(plain[k])
    {
      plain[offset + i] := XorByte(rate[i], cipher[offset + i]);
      newRate[i] := cipher[offset + i];
      i := i + 1;
    }
    assert newRate[..] == if cipher == plain then out else block;
    BytesToRate(s, newRate);
    s.Permute(8);
  }

  method DecryptLast(s: AsconState, cipher: array?<Byte>, plain: array<Byte>, offset: nat, len: nat)
    requires len < 16 && offset + len <= plain.Length
    requires len > 0 ==> cipher != null && offset + len <= cipher.Length
    modifies s, plain
    ensures var final := if len > 0 then old(cipher[offset..offset + len]) else [];
            && s.Words() == LastRate(cipher != plain, old(s.Words()), final)
            && plain[..] == Overwrite(old(plain[..]), offset, Out(old(s.Words()), final))
  {
    hide Permutation.Permute, AsconState.Words, RateBytes, ReplaceRate, XorByte, FinalRate;
    ghost var final := if len > 0 then cipher[offset..offset + len] else [];
    ghost var out := Out(s.Words(), final);
    var rate, newRate := new Byte[16], new Byte[16];
    RateToBytes(s, rate);
    CopyBytes(newRate, 0, rate, 0, 16);
    assert newRate[..] == rate[..];
    if len > 0 {
      DecryptTail(cipher, plain, offset, len, rate, newRate);
    }
    FlipRate(newRate, len, rate[..], if cipher == plain then out else final);
    BytesToRate(s, newRate);
  }

  method FlipRate(newRate: array<Byte>, len: nat, ghost rate: seq<Byte>, ghost final: seq<Byte>)
    requires newRate.Length == 16 == |rate| && len == |final| < 16 && newRate[..] == final + rate[len..]
    modifies newRate
    ensures newRate[..] == FinalRate(rate, final)
  {
    hide XorByte;
    newRate[len] := XorByte(newRate[len], 1);
  }

  method DecryptTail(cipher: array<Byte>, plain: array<Byte>, offset: nat, len: nat, rate: array<Byte>,
                     newRate: array<Byte>)
    requires len < 16 && offset + len <= plain.Length && offset + len <= cipher.Length
    requires rate.Length == 16 == newRate.Length && newRate[..] == rate[..]
    requires rate != newRate && plain != rate && plain != newRate && cipher != newRate
    modifies plain, newRate
    ensures var final := old(cipher[offset..offset + len]);
            var out := XorBytes(rate[..len], final);
            && newRate[..] == (if cipher == plain then out else final) + rate[len..]
            && plain[..] == Overwrite(old(plain[..]), offset, out)
  {
    hide XorByte;
    ghost var final := cipher[offset..offset + len];
    ghost var out := XorBytes(rate[..len], final);
    var i := 0;
    while i < len
      invariant 0 <= i <= len
      invariant forall k :: i <= k < len ==> cipher[offset + k] == final[k]
      invariant forall k :: 0 <= k < 16 ==>
                  newRate[k] == if k < i then (if cipher == plain then out else final)[k] else rate[k]
      invariant forall k :: 0 <= k < plain.Length ==>
                  plain[k] == if offset <= k < offset + i then out[k - offset] else old(plain[k])
    {
      plain[offset + i] := XorByte(rate[i], cipher[offset + i]);
      newRate[i] := cipher[offset + i];
      i := i + 1;
    }
  }

  method DecryptStep(s: AsconState, cipher: array<Byte>, cipherLen: nat, plain: array<Byte>, offset: nat,
                     ghost data: seq<Byte>, ghost s0: State)
    requires offset + 16 <= cipherLen == |data| && cipherLen <= cipher.Length && cipherLen <= plain.Length
    requires cipher[offset..cipherLen] == data[offset..]
    requires Crypting(cipher != plain, s0, s.Words(), data, offset, plain[..offset])
    modifies s, plain
    ensures cipher[offset + 16..cipherLen] == data[offset + 16..]
    ensures Crypting(cipher != plain, s0, s.Words(), data, offset + 16, plain[..offset + 16])
    ensures plain[cipherLen..] == old(plain[cipherLen..])
  {
    hide Permutation.Permute, AsconState.Words, RateBytes, Crypting, Overwrite, FullRate, Out;
    ghost var before, source, block := plain[..], cipher[..], data[offset..offset + 16];
    BlockOfText(source, data, offset, cipherLen);
    CryptingAdvances(cipher != plain, s0, s.Words(), data, offset, plain[..offset]);
    OverwriteParts(before, offset, Out(s.Words(), block), cipherLen);
    DecryptBlockAt(s, cipher, plain, offset);
    assert cipher[offset + 16..cipherLen] == cipher[..][offset + 16..cipherLen] == source[offset + 16..cipherLen];
    assert plain[..offset + 16] == plain[..][..offset + 16] && before[..offset] == old(plain[..offset]);
    assert plain[cipherLen..] == plain[..][cipherLen..] && before[cipherLen..] == old(plain[cipherLen..]);
  }

  // In one array the ciphertext is encrypted, not decrypted.
  method DecryptTextInto(s: AsconState, cipher: array?<Byte>, cipherLen: nat, plain: array<Byte>)
    requires cipherLen <= plain.Length && (cipherLen > 0 ==> cipher != null && cipherLen <= cipher.Length)
    modifies s, plain
    ensures CryptText(NIST_AEAD128, cipher != plain, old(s.Words()), BytesBits(old(Argument(cipher, cipherLen))))
         == Crypt(s.Words(), BytesBits(plain[..cipherLen]))
    ensures plain[cipherLen..] == old(plain[cipherLen..])
  {
    hide Permutation.Permute, AsconState.Words, RateBytes, BytesBits, CryptText, Crypting, Overwrite, LastRate, Out;
    ghost var data, s0 := Argument(cipher, cipherLen), s.Words();
    var offset := 0;
    assert plain[..0] == [];
    assert cipherLen > 0 ==> cipher[0..cipherLen] == data[0..];
    CryptingStarts(cipher != plain, s0, data);
    while cipherLen - offset >= 16
      invariant 0 <= offset <= cipherLen
      invariant cipherLen > 0 ==> cipher[offset..cipherLen] == data[offset..]
      invariant plain[cipherLen..] == old(plain[cipherLen..])
      invariant Crypting(cipher != plain, s0, s.Words(), data, offset, plain[..offset])
    {
      DecryptStep(s, cipher, cipherLen, plain, offset, data, s0);
      offset := offset + 16;
    }
    var len := cipherLen - offset;
    assert data[offset..] == if len > 0 then cipher[offset..offset + len] else [];
    CryptingEnds(cipher != plain, s0, s.Words(), data, offset, plain[..offset]);
    OverwriteParts(plain[..], offset, Out(s.Words(), data[offset..]), cipherLen);
    DecryptLast(s, cipher, plain, offset, len);
    assert plain[..cipherLen] == plain[..][..cipherLen] && plain[cipherLen..] == plain[..][cipherLen..];
  }

  // The key and the tag as they now are decide whether the text may stay.
  method Judge(s: AsconState, key: array<Byte>, tag: array<Byte>, plain: array<Byte>, len: nat, valid: array<bool>)
    requires key.Length >= 16 && tag.Length >= 16 && len <= plain.Length && valid.Length >= 1
    modifies s, plain, valid
    ensures valid[0] <==>
            Finalize(NIST_AEAD128, old(s.Words()), BytesBits(old(key[..16]))) == BytesBits(old(tag[..16]))
    ensures valid[1..] == old(valid[1..])
    ensures plain[..] == if valid[0] then old(plain[..]) else seq(len, _ => 0) + old(plain[len..])
  {
    hide AsconState.Words, BytesBits, Finalize;
    var computedTag := new Byte[16];
    FinalizeTagInto(s, key, computedTag);
    SameBytes(computedTag[..16], tag[..16]);
    var equal := ConstantTimeEqual(computedTag, tag);
    valid[0] := equal;
    if !valid[0] && len > 0 {
      ClearBytes(plain, len);
    }
  }

  // The flag and the whole array after decryption. The key and the tag are read
  // again after the text has been written.
  datatype Outcome = Outcome(valid: bool, output: seq<Byte>)

  function DecryptOutcome(inPlace: bool, keyShared: bool, tagShared: bool, g: Given, tag: seq<Byte>,
                          output: seq<Byte>): (r: Outcome)
    requires g.Fits(output) && |tag| == 16 && (keyShared || tagShared ==> |output| >= 16)
    ensures |r.output| == |output|
  {
    hide CryptText, Initialize, ProcessAd, Finalize, BytesBits, BitsBytes;
    var n := |g.text|;
    var s := ProcessAd(NIST_AEAD128, Initialize(NIST_AEAD128, BytesBits(g.key), BytesBits(g.nonce)), BytesBits(g.ad));
    var c := CryptText(NIST_AEAD128, !inPlace, s, BytesBits(g.text));
    var written := BitsBytes(c.text, n) + output[n..];
    var computed := Finalize(NIST_AEAD128, c.state, BytesBits(if keyShared then written[..16] else g.key));
    var valid := computed == BytesBits(if tagShared then written[..16] else tag);
    Outcome(valid, if valid then written else seq(n, _ => 0) + output[n..])
  }

  lemma OutcomeText(inPlace: bool, g: Given, tag: seq<Byte>, output: seq<Byte>)
    requires g.Fits(output) && |tag| == 16
    ensures var c := Crypto(NIST_AEAD128, !inPlace, BytesBits(g.key), BytesBits(g.nonce), BytesBits(g.ad),
                            BytesBits(g.text));
            var r := DecryptOutcome(inPlace, false, false, g, tag, output);
            && r.valid == (c.tag == BytesBits(tag))
            && BytesBits(r.output[..|g.text|]) == (if r.valid then c.text else Zeros(8 * |g.text|))
            && r.output[|g.text|..] == output[|g.text|..]
  {
    hide CryptText, Initialize, ProcessAd, Finalize, BytesBits, BitsBytes;
    var n := |g.text|;
    var c := Crypto(NIST_AEAD128, !inPlace, BytesBits(g.key), BytesBits(g.nonce), BytesBits(g.ad), BytesBits(g.text));
    BitStringsRoundTrip(c.text, n);
    ParsePad.ZeroBytes(n);
    assert (BitsBytes(c.text, n) + output[n..])[..n] == BitsBytes(c.text, n);
    assert (seq(n, _ => 0) + output[n..])[..n] == seq(n, _ => 0);
  }

  // With a plaintext array of its own this is the decryption of the standard,
  // with zeros for a rejected plaintext.
  lemma SeparateArraysDecrypt(g: Given, tag: seq<Byte>, output: seq<Byte>)
    requires g.Fits(output) && |tag| == 16
    ensures var d := Decrypted(g, tag);
            var r := DecryptOutcome(false, false, false, g, tag, output);
            && r.valid == d.valid
            && BytesBits(r.output[..|g.text|]) == (if d.valid then d.plain else Zeros(8 * |g.text|))
            && r.output[|g.text|..] == output[|g.text|..]
  {
    OutcomeText(false, g, tag, output);
  }

  // In one array the ciphertext is accepted if and only if the tag is the one of
  // encrypting the ciphertext, and that encryption is what the array then holds.
  lemma InPlaceEncrypts(g: Given, tag: seq<Byte>, output: seq<Byte>)
    requires g.Fits(output) && |tag| == 16
    ensures var e := Encrypted(g);
            var r := DecryptOutcome(true, false, false, g, tag, output);
            && (r.valid <==> BytesBits(tag) == e.tag)
            && BytesBits(r.output[..|g.text|]) == (if r.valid then e.text else Zeros(8 * |g.text|))
            && r.output[|g.text|..] == output[|g.text|..]
  {
    OutcomeText(true, g, tag, output);
  }

  // Every array may be shared with every other.
  method Decrypt128(key: array?<Byte>, nonce: array?<Byte>, ad: array?<Byte>, adLen: nat, cipher: array?<Byte>,
                    cipherLen: nat, tag: array?<Byte>, plain: array?<Byte>, valid: array?<bool>) returns (status: int)
    requires ArraysFit(key, nonce, ad, adLen, cipher, cipherLen, plain)
    requires (tag != null ==> tag.Length >= 16) && (valid != null ==> valid.Length >= 1)
    modifies plain, valid
    ensures status == -1 || status == 0
    ensures status == 0 <==>
            && key != null && nonce != null && plain != null && tag != null && valid != null
            && (adLen == 0 || ad != null) && (cipherLen == 0 || cipher != null)
    ensures status == -1 && plain != null ==> plain[..] == old(plain[..])
    ensures status == -1 && valid != null ==> valid[..] == old(valid[..])
    ensures status == 0 ==>
              && valid[1..] == old(valid[1..])
              && Outcome(valid[0], plain[..])
                 == DecryptOutcome(cipher == plain, key == plain, tag == plain,
                                   old(Arguments(key, nonce, ad, adLen, cipher, cipherLen, plain)),
                                   old(tag[..16]), old(plain[..]))
    ensures status == 0 && plain != cipher && plain != key && plain != tag ==>
              var d := Decrypted(old(Arguments(key, nonce, ad, adLen, cipher, cipherLen, plain)), old(tag[..16]));
              && valid[0] == d.valid
              && BytesBits(plain[..cipherLen]) == (if d.valid then d.plain else Zeros(8 * cipherLen))
              && plain[cipherLen..] == old(plain[cipherLen..])
  {
    hide Decrypted, DecryptOutcome, AsconState.Words, BytesBits;
    if BadArguments(key, nonce, ad, adLen, cipher, cipherLen, plain) || tag == null || valid == null {
      return -1;
    }
    SeparateArraysDecrypt(Arguments(key, nonce, ad, adLen, cipher, cipherLen, plain), tag[..16], plain[..]);
    DecryptArrays(key, nonce, ad, adLen, cipher, cipherLen, tag, plain, valid);
    return 0;
  }

  method DecryptArrays(key: array<Byte>, nonce: array<Byte>, ad: array?<Byte>, adLen: nat, cipher: array?<Byte>,
                       cipherLen: nat, tag: array<Byte>, plain: array<Byte>, valid: array<bool>)
    requires ArraysFit(key, nonce, ad, adLen, cipher, cipherLen, plain) && tag.Length >= 16 && valid.Length >= 1
    requires !BadArguments(key, nonce, ad, adLen, cipher, cipherLen, plain)
    modifies plain, valid
    ensures valid[1..] == old(valid[1..])
    ensures Outcome(valid[0], plain[..])
         == DecryptOutcome(cipher == plain, key == plain, tag == plain,
                           old(Arguments(key, nonce, ad, adLen, cipher, cipherLen, plain)), old(tag[..16]),
                           old(plain[..]))
  {
    hide AsconState.Words, BytesBits, BitsBytes, CryptText, Initialize, ProcessAd, Finalize;
    ghost var before := plain[..];
    var s := new AsconState();
    InitializeState(s, key, nonce);
    ProcessAssociated(s, ad, adLen);
    DecryptTextInto(s, cipher, cipherLen, plain);
    WrittenBytes(plain[..], before, BytesBits(plain[..cipherLen]), cipherLen);
    Judge(s, key, tag, plain, cipherLen, valid);
  }
}
