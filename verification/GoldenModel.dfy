// The byte-oriented golden model: its loops over blocks and bytes, proved to
// compute the bit-string functions of the standard.
module GoldenModel {
  import opened BitVectors
  import opened Bytes
  import opened Results
  import opened Permutation
  import opened Sponge
  import opened Aead
  import opened ParsePad

  // ------------------------------------------------------------ permutation

  // The 64 table lookups, columns in order, with the words built up bit by bit.
  method SubstituteByTable(s: State) returns (r: State)
    ensures r == PS(s)
  {
    hide Sbox, Substitute, PS;
    var y := Zeros(320);
    var bitIndex := 0;
    while bitIndex < 64
      invariant 0 <= bitIndex <= 64 && |y| == 320
      invariant forall j :: 0 <= j < bitIndex ==> ColumnAt(y, j) == Substitute(ColumnAt(s, j))
      invariant forall j :: bitIndex <= j < 64 ==> ColumnAt(y, j) == Column(false, false, false, false, false)
    {
      y := SubstituteColumn(s, y, bitIndex);
      bitIndex := bitIndex + 1;
    }
    forall j | 0 <= j < 64 ensures ColumnAt(y, j) == ColumnAt(PS(s), j) {
      BitslicedIsTable(s, j);
    }
    StatesEqualByColumns(y, PS(s));
    r := y;
  }

  // One column: collect the five bits, look them up, scatter the result.
  method SubstituteColumn(s: State, y: State, j: nat) returns (r: State)
    requires j < 64 && ColumnAt(y, j) == Column(false, false, false, false, false)
    ensures ColumnAt(r, j) == Substitute(ColumnAt(s, j))
    ensures forall k :: 0 <= k < 64 && k != j ==> ColumnAt(r, k) == ColumnAt(y, k)
  {
    hide Sbox, PutColumn, ValueColumn;
    var input := 0;
    var wordIndex := 0;
    while wordIndex < 5
      invariant 0 <= wordIndex <= 5
      invariant input == PartialValue(ColumnAt(s, j), wordIndex)
    {
      input := input + Bit(s[64 * wordIndex + j]) * Weight(wordIndex);
      wordIndex := wordIndex + 1;
    }
    r := PutColumn(y, j, ValueColumn(Sbox(input)));
    PutColumnAt(y, j, ValueColumn(Sbox(input)));
  }

  function Weight(word: nat): nat
    requires word < 5
  {
    if word == 0 then 16 else if word == 1 then 8 else if word == 2 then 4 else if word == 3 then 2 else 1
  }

  function PartialValue(c: Column, n: nat): nat
  {
    (if n > 0 then 16 * Bit(c.x0) else 0) + (if n > 1 then 8 * Bit(c.x1) else 0) + (if n > 2 then 4 * Bit(c.x2) else 0)
    + (if n > 3 then 2 * Bit(c.x3) else 0) + (if n > 4 then Bit(c.x4) else 0)
  }

  function PutColumn(y: State, j: nat, c: Column): State
    requires j < 64
  {
    y[j := y[j] || c.x0][64 + j := y[64 + j] || c.x1][128 + j := y[128 + j] || c.x2]
     [192 + j := y[192 + j] || c.x3][256 + j := y[256 + j] || c.x4]
  }

  lemma PutColumnAt(y: State, j: nat, c: Column)
    requires j < 64 && ColumnAt(y, j) == Column(false, false, false, false, false)
    ensures ColumnAt(PutColumn(y, j, c), j) == c
    ensures forall k :: 0 <= k < 64 && k != j ==> ColumnAt(PutColumn(y, j, c), k) == ColumnAt(y, k)
  {
  }

  method ApplyPermutation(s: State, rounds: int) returns (r: Result<State>)
    ensures r.Err? <==> !(1 <= rounds <= 16)
    ensures r.Ok? ==> r.value == Permute(s, rounds)
  {
    hide Round;
    if rounds < 1 || rounds > 16 {
      return Err;
    }
    var current := s;
    var roundIndex := 0;
    while roundIndex < rounds
      invariant 0 <= roundIndex <= rounds
      invariant current == FirstRounds(s, 16 - rounds, roundIndex)
    {
      current := Round(current, 16 - rounds + roundIndex);
      roundIndex := roundIndex + 1;
    }
    FirstThenRest(s, 16 - rounds, rounds);
    r := Ok(current);
  }

  // ------------------------------------------------------------- rate lanes

  function RateBytes(s: State, n: nat): (r: seq<Byte>)
    requires n <= 40
    ensures |r| == n
  {
    BitsBytes(s, n)
  }

  function ReplaceRate(s: State, block: seq<Byte>): State
    requires |block| <= 40
  {
    Splice(s, 0, BytesBits(block))
  }

  function XorBytes(a: seq<Byte>, b: seq<Byte>): (r: seq<Byte>)
    requires |a| == |b|
    ensures |r| == |a|
  {
    seq(|a|, i requires 0 <= i < |a| => XorByte(a[i], b[i]))
  }

  function XorRate(s: State, block: seq<Byte>): State
    requires |block| <= 40
  {
    ReplaceRate(s, XorBytes(RateBytes(s, |block|), block))
  }

  lemma RateBits(s: State, n: nat)
    requires n <= 40
    ensures BytesBits(RateBytes(s, n)) == s[..8 * n]
  {
    hide BytesBits, ByteOf;
    forall i | 0 <= i < n ensures s[..8 * n][8 * i..8 * i + 8] == s[8 * i..8 * i + 8] {
    }
    assert BitsBytes(s, n) == BitsBytes(s[..8 * n], n);
    BitStringsRoundTrip(s[..8 * n], n);
  }

  lemma XorRateIsXor(s: State, block: seq<Byte>)
    requires |block| <= 40
    ensures XorRate(s, block) == XorAt(s, 0, BytesBits(block))
    ensures BytesBits(RateBytes(XorRate(s, block), |block|)) == XorAt(s, 0, BytesBits(block))[..8 * |block|]
  {
    hide BytesBits, RateBytes, XorByte;
    RateBits(s, |block|);
    RateBits(XorRate(s, block), |block|);
    BytesBitsXor(RateBytes(s, |block|), block);
  }

  // ----------------------------------------------------------- configuration

  datatype ByteConfig = ByteConfig(keyBytes: nat, rateBytes: nat, rounds: nat, iv: seq<Byte>) {
    predicate Valid()
    {
      && (rateBytes == 8 || rateBytes == 16) && (rounds == 6 || rounds == 8)
      && (keyBytes == 16 || keyBytes == 20) && |iv| + keyBytes == 24
    }

    function Spec(): (c: Config)
      requires Valid()
      ensures c.Valid()
    {
      Config(8 * rateBytes, rounds, 8 * keyBytes, BytesBits(iv))
    }
  }

  // -------------------------------------------------------- associated data

  lemma AbsorbBlock(s: State, block: seq<Byte>, rest: seq<Byte>, rate: nat, inner: nat, last: nat)
    requires 0 < rate <= 40 && |block| == rate && inner <= 16 && last <= 16
    ensures Absorb(s, BytesBits(block + rest), 8 * rate, inner, last)
         == Absorb(Permute(XorRate(s, block), inner), BytesBits(rest), 8 * rate, inner, last)
  {
    hide Permute, XorAt, BytesBits, XorRate;
    XorRateIsXor(s, block);
    BytesBitsConcat(block, rest);
    assert (BytesBits(block) + BytesBits(rest))[..8 * rate] == BytesBits(block);
    assert (BytesBits(block) + BytesBits(rest))[8 * rate..] == BytesBits(rest);
  }

  lemma AbsorbFinal(s: State, final: seq<Byte>, rate: nat, inner: nat, last: nat)
    requires 0 < rate <= 40 && |final| < rate && inner <= 16 && last <= 16
    ensures PadBytes(final, rate).Ok? && |PadBytes(final, rate).value| == rate
    ensures Permute(XorRate(s, PadBytes(final, rate).value), last) == Absorb(s, BytesBits(final), 8 * rate, inner, last)
  {
    hide Permute, XorAt, BytesBits, XorRate, Pad;
    PadAgrees(final, rate);
    XorRateIsXor(s, PadBytes(final, rate).value);
  }

  // Full blocks followed by `inner` rounds, the padded block by `last` rounds.
  method AbsorbBytes(s: State, data: seq<Byte>, rate: nat, inner: nat, last: nat) returns (t: State)
    requires 0 < rate <= 40 && 1 <= inner <= 16 && 1 <= last <= 16
    ensures t == Absorb(s, BytesBits(data), 8 * rate, inner, last)
  {
    hide Permute, Absorb, BytesBits, XorRate, Rest, PadBytes, Parses;
    t := s;
    var parsed := Parse(data, rate);
    var p, k := parsed.value, 0;
    RestUnfolds(data, rate, p, k);
    while k < |p.full|
      invariant 0 <= k <= |p.full|
      invariant Absorb(t, BytesBits(Rest(p, k)), 8 * rate, inner, last)
                == Absorb(s, BytesBits(data), 8 * rate, inner, last)
    {
      RestUnfolds(data, rate, p, k);
      AbsorbBlock(t, p.full[k], Rest(p, k + 1), rate, inner, last);
      var permuted := ApplyPermutation(XorRate(t, p.full[k]), inner);
      t := permuted.value;
      k := k + 1;
    }
    RestUnfolds(data, rate, p, k);
    AbsorbFinal(t, p.final, rate, inner, last);
    var permuted := ApplyPermutation(XorRate(t, PadBytes(p.final, rate).value), last);
    t := permuted.value;
  }

  method ProcessAssociatedData(cfg: ByteConfig, s: State, ad: seq<Byte>) returns (t: State)
    requires cfg.Valid()
    ensures t == ProcessAd(cfg.Spec(), s, BytesBits(ad))
  {
    hide Absorb;
    t := s;
    if |ad| > 0 {
      t := AbsorbBytes(t, ad, cfg.rateBytes, cfg.rounds, cfg.rounds);
    }
    t := XorAt(t, 319, [true]);
  }

  // --------------------------------------------------------------- the text

  lemma EncryptBlock(cfg: ByteConfig, s: State, block: seq<Byte>, rest: seq<Byte>)
    requires cfg.Valid() && |block| == cfg.rateBytes
    ensures var t := XorRate(s, block);
            var e := EncryptText(cfg.Spec(), Permute(t, cfg.rounds), BytesBits(rest));
            EncryptText(cfg.Spec(), s, BytesBits(block + rest))
            == Crypt(e.state, BytesBits(RateBytes(t, cfg.rateBytes)) + e.text)
  {
    hide Permute, XorAt, BytesBits, XorRate, RateBytes;
    XorRateIsXor(s, block);
    BytesBitsConcat(block, rest);
    assert (BytesBits(block) + BytesBits(rest))[..8 * cfg.rateBytes] == BytesBits(block);
    assert (BytesBits(block) + BytesBits(rest))[8 * cfg.rateBytes..] == BytesBits(rest);
  }

  lemma EncryptFinal(cfg: ByteConfig, s: State, final: seq<Byte>)
    requires cfg.Valid() && |final| < cfg.rateBytes
    ensures PadBytes(final, cfg.rateBytes).Ok? && |PadBytes(final, cfg.rateBytes).value| == cfg.rateBytes
    ensures var t := XorRate(s, PadBytes(final, cfg.rateBytes).value);
            EncryptText(cfg.Spec(), s, BytesBits(final)) == Crypt(t, BytesBits(RateBytes(t, cfg.rateBytes)[..|final|]))
  {
    hide BytesBits, XorRate, RateBytes, Pad, XorAt;
    PadAgrees(final, cfg.rateBytes);
    var block := PadBytes(final, cfg.rateBytes).value;
    XorRateIsXor(s, block);
    var t := XorRate(s, block);
    RateBits(t, cfg.rateBytes);
    BytesBitsSlice(RateBytes(t, cfg.rateBytes), 0, |final|);
  }

  method EncryptPlaintext(cfg: ByteConfig, s: State, plain: seq<Byte>) returns (t: State, cipher: seq<Byte>)
    requires cfg.Valid()
    ensures EncryptText(cfg.Spec(), s, BytesBits(plain)) == Crypt(t, BytesBits(cipher))
  {
    hide Permute, EncryptText, BytesBits, XorRate, RateBytes, Rest, PadBytes, Parses;
    t, cipher := s, [];
    var parsed := Parse(plain, cfg.rateBytes);
    var p, k := parsed.value, 0;
    RestUnfolds(plain, cfg.rateBytes, p, k);
    BytesBitsUnfold([]);
    while k < |p.full|
      invariant 0 <= k <= |p.full|
      invariant var e := EncryptText(cfg.Spec(), t, BytesBits(Rest(p, k)));
                EncryptText(cfg.Spec(), s, BytesBits(plain)) == Crypt(e.state, BytesBits(cipher) + e.text)
    {
      RestUnfolds(plain, cfg.rateBytes, p, k);
      EncryptBlock(cfg, t, p.full[k], Rest(p, k + 1));
      t := XorRate(t, p.full[k]);
      BytesBitsConcat(cipher, RateBytes(t, cfg.rateBytes));
      cipher := cipher + RateBytes(t, cfg.rateBytes);
      var permuted := ApplyPermutation(t, cfg.rounds);
      t := permuted.value;
      k := k + 1;
    }
    RestUnfolds(plain, cfg.rateBytes, p, k);
    EncryptFinal(cfg, t, p.final);
    t := XorRate(t, PadBytes(p.final, cfg.rateBytes).value);
    BytesBitsConcat(cipher, RateBytes(t, cfg.rateBytes)[..|p.final|]);
    cipher := cipher + RateBytes(t, cfg.rateBytes)[..|p.final|];
  }

  lemma DecryptBlock(cfg: ByteConfig, s: State, block: seq<Byte>, rest: seq<Byte>)
    requires cfg.Valid() && |block| == cfg.rateBytes
    ensures var d := DecryptText(cfg.Spec(), Permute(ReplaceRate(s, block), cfg.rounds), BytesBits(rest));
            DecryptText(cfg.Spec(), s, BytesBits(block + rest))
            == Crypt(d.state, BytesBits(XorBytes(RateBytes(s, cfg.rateBytes), block)) + d.text)
  {
    hide Permute, Splice, BytesBits, RateBytes, XorByte;
    RateBits(s, cfg.rateBytes);
    BytesBitsXor(RateBytes(s, cfg.rateBytes), block);
    BytesBitsConcat(block, rest);
    assert (BytesBits(block) + BytesBits(rest))[..8 * cfg.rateBytes] == BytesBits(block);
    assert (BytesBits(block) + BytesBits(rest))[8 * cfg.rateBytes..] == BytesBits(rest);
  }

  // The last rate image: the ciphertext bytes in front, then one byte with its
  // lowest bit flipped, then the old rate.
  function FinalRate(rate: seq<Byte>, final: seq<Byte>): (r: seq<Byte>)
    requires |final| < |rate|
    ensures |r| == |rate|
  {
    var replaced := final + rate[|final|..];
    replaced[|final| := XorByte(replaced[|final|], 1)]
  }

  lemma FlippedByte(s: State, n: nat, k: nat)
    requires k < n <= 40
    ensures ByteBits(XorByte(RateBytes(s, n)[k], 1)) == Xor(s[8 * k..8 * k + 8], [true] + Zeros(7))
  {
    hide BytesBits, ByteBits, ByteOf;
    BitsRoundTrip(s[8 * k..8 * k + 8]);
    BitsRoundTrip(Xor(s[8 * k..8 * k + 8], ByteBits(1)));
    ByteZero();
  }

  lemma SplicedWithFlip(s: State, n: nat, k: nat, f: Bits)
    requires k < n <= 40 && |f| == 8 * k
    ensures Splice(s, 0, f + (Xor(s[8 * k..8 * k + 8], [true] + Zeros(7)) + s[8 * k + 8..8 * n]))
         == XorAt(Splice(s, 0, f), 8 * k, [true])
  {
  }

  lemma FinalRateShape(rate: seq<Byte>, final: seq<Byte>)
    requires |final| < |rate|
    ensures FinalRate(rate, final) == final + ([XorByte(rate[|final|], 1)] + rate[|final| + 1..])
  {
    hide XorByte;
  }

  lemma TailBits(s: State, n: nat, k: nat)
    requires k < n <= 40
    ensures BytesBits([XorByte(RateBytes(s, n)[k], 1)] + RateBytes(s, n)[k + 1..])
         == Xor(s[8 * k..8 * k + 8], [true] + Zeros(7)) + s[8 * k + 8..8 * n]
  {
    hide BytesBits, ByteBits, XorByte, RateBytes;
    var rate: seq<Byte> := RateBytes(s, n);
    var tail: seq<Byte> := [XorByte(rate[k], 1)] + rate[k + 1..];
    RateBits(s, n);
    BytesBitsSlice(rate, k + 1, n);
    assert s[..8 * n][8 * (k + 1)..8 * n] == s[8 * k + 8..8 * n];
    assert rate[k + 1..n] == rate[k + 1..];
    FlippedByte(s, n, k);
    BytesBitsUnfold(tail);
    assert tail[1..] == rate[k + 1..];
  }

  lemma FinalRateBits(s: State, n: nat, final: seq<Byte>)
    requires |final| < n <= 40
    ensures ReplaceRate(s, FinalRate(RateBytes(s, n), final))
            == XorAt(Splice(s, 0, BytesBits(final)), 8 * |final|, [true])
  {
    hide BytesBits, ByteBits, XorByte, RateBytes, Splice, XorAt, FinalRate;
    var k, rate: seq<Byte> := |final|, RateBytes(s, n);
    var tail: seq<Byte> := [XorByte(rate[k], 1)] + rate[k + 1..];
    FinalRateShape(rate, final);
    BytesBitsConcat(final, tail);
    TailBits(s, n, k);
    SplicedWithFlip(s, n, k, BytesBits(final));
  }

  lemma DecryptFinal(cfg: ByteConfig, s: State, final: seq<Byte>)
    requires cfg.Valid() && |final| < cfg.rateBytes
    ensures var rate := RateBytes(s, cfg.rateBytes);
            DecryptText(cfg.Spec(), s, BytesBits(final))
            == Crypt(ReplaceRate(s, FinalRate(rate, final)), BytesBits(XorBytes(rate[..|final|], final)))
  {
    hide BytesBits, RateBytes, XorByte, FinalRate, ReplaceRate, XorAt, Splice;
    var rate := RateBytes(s, cfg.rateBytes);
    RateBits(s, cfg.rateBytes);
    FinalRateBits(s, cfg.rateBytes, final);
    BytesBitsSlice(rate, 0, |final|);
    BytesBitsXor(rate[..|final|], final);
    assert s[..8 * cfg.rateBytes][..8 * |final|] == s[..8 * |final|];
  }

  method DecryptCiphertext(cfg: ByteConfig, s: State, cipher: seq<Byte>) returns (t: State, plain: seq<Byte>)
    requires cfg.Valid()
    ensures DecryptText(cfg.Spec(), s, BytesBits(cipher)) == Crypt(t, BytesBits(plain))
  {
    hide Permute, DecryptText, BytesBits, XorByte, ReplaceRate, RateBytes, Rest, Parses;
    t, plain := s, [];
    var parsed := Parse(cipher, cfg.rateBytes);
    var p, k := parsed.value, 0;
    RestUnfolds(cipher, cfg.rateBytes, p, k);
    BytesBitsUnfold([]);
    while k < |p.full|
      invariant 0 <= k <= |p.full|
      invariant var d := DecryptText(cfg.Spec(), t, BytesBits(Rest(p, k)));
                DecryptText(cfg.Spec(), s, BytesBits(cipher)) == Crypt(d.state, BytesBits(plain) + d.text)
    {
      RestUnfolds(cipher, cfg.rateBytes, p, k);
      DecryptBlock(cfg, t, p.full[k], Rest(p, k + 1));
      var before: seq<Byte> := RateBytes(t, cfg.rateBytes);
      BytesBitsConcat(plain, XorBytes(before, p.full[k]));
      plain := plain + XorBytes(before, p.full[k]);
      var permuted := ApplyPermutation(ReplaceRate(t, p.full[k]), cfg.rounds);
      t := permuted.value;
      k := k + 1;
    }
    RestUnfolds(cipher, cfg.rateBytes, p, k);
    DecryptFinal(cfg, t, p.final);
    var rateFinal: seq<Byte> := RateBytes(t, cfg.rateBytes);
    BytesBitsConcat(plain, XorBytes(rateFinal[..|p.final|], p.final));
    plain := plain + XorBytes(rateFinal[..|p.final|], p.final);
    rateFinal := p.final + rateFinal[|p.final|..];
    rateFinal := rateFinal[|p.final| := XorByte(rateFinal[|p.final|], 1)];
    t := ReplaceRate(t, rateFinal);
  }

  // ---------------------------------------------------------- key and tag

  lemma ImageSlice(s: State, i: nat, j: nat)
    requires i <= j <= 40
    ensures BytesBits(RateBytes(s, 40)[i..j]) == s[8 * i..8 * j]
  {
    hide BytesBits, RateBytes;
    RateBits(s, 40);
    BytesBitsSlice(RateBytes(s, 40), i, j);
    assert s[..320][8 * i..8 * j] == s[8 * i..8 * j];
  }

  lemma BytesBitsConcat3(a: seq<Byte>, b: seq<Byte>, c: seq<Byte>)
    ensures BytesBits(a + b + c) == BytesBits(a) + BytesBits(b) + BytesBits(c)
  {
    hide BytesBits;
    BytesBitsConcat(a + b, c);
    BytesBitsConcat(a, b);
  }

  lemma XoredParts(s: State, start: nat, key: seq<Byte>, a: seq<Byte>, b: seq<Byte>, c: seq<Byte>)
    requires start + |key| <= 40 && |b| == |key|
    requires BytesBits(a) == s[0..8 * start] && BytesBits(c) == s[8 * (start + |key|)..320]
    requires BytesBits(b) == s[8 * start..8 * (start + |key|)]
    ensures BytesBits(a + XorBytes(b, key) + c) == XorAt(s, 8 * start, BytesBits(key))
  {
    hide BytesBits, XorBytes, XorAt, Xor;
    BytesBitsConcat3(a, XorBytes(b, key), c);
    XorBytesBits(b, key);
    SplicedXor(s, 8 * start, BytesBits(key));
  }

  lemma XoredImage(s: State, start: nat, key: seq<Byte>)
    requires start + |key| <= 40
    ensures var image: seq<Byte> := RateBytes(s, 40);
            BytesBits(image[0..start] + XorBytes(image[start..start + |key|], key) + image[start + |key|..40])
            == XorAt(s, 8 * start, BytesBits(key))
  {
    hide BytesBits, XorBytes, RateBytes, XorAt, Xor;
    var n, image: seq<Byte> := |key|, RateBytes(s, 40);
    ImageSlice(s, 0, start);
    ImageSlice(s, start, start + n);
    ImageSlice(s, start + n, 40);
    XoredParts(s, start, key, image[0..start], image[start..start + n], image[start + n..40]);
  }

  lemma XorBytesBits(a: seq<Byte>, b: seq<Byte>)
    requires |a| == |b|
    ensures BytesBits(XorBytes(a, b)) == Xor(BytesBits(a), BytesBits(b))
  {
    hide BytesBits, XorByte;
    BytesBitsXor(a, b);
  }

  lemma SplicedXor(s: State, off: nat, k: Bits)
    requires off + |k| <= 320
    ensures s[0..off] + Xor(s[off..off + |k|], k) + s[off + |k|..320] == XorAt(s, off, k)
  {
  }

  // image[start + index] ^= value for every key byte.
  method XorKey(s: State, start: nat, key: seq<Byte>) returns (t: State)
    requires start + |key| <= 40
    ensures t == XorAt(s, 8 * start, BytesBits(key))
  {
    hide BytesBits, XorByte, RateBytes, XorAt;
    var image: seq<Byte> := RateBytes(s, 40);
    ghost var before: seq<Byte> := image;
    var index := 0;
    while index < |key|
      invariant 0 <= index <= |key| && |image| == 40
      invariant forall i :: 0 <= i < 40 ==>
                  image[i] == if start <= i < start + index then XorByte(before[i], key[i - start]) else before[i]
    {
      image := image[start + index := XorByte(image[start + index], key[index])];
      index := index + 1;
    }
    assert image == before[0..start] + XorBytes(before[start..start + |key|], key) + before[start + |key|..40];
    XoredImage(s, start, key);
    t := BytesBits(image);
  }

  method InitializeState(cfg: ByteConfig, key: seq<Byte>, nonce: seq<Byte>) returns (r: Result<State>)
    requires cfg.Valid()
    ensures r.Err? <==> |key| != cfg.keyBytes || |nonce| != 16
    ensures r.Ok? ==> r.value == Initialize(cfg.Spec(), BytesBits(key), BytesBits(nonce))
  {
    hide BytesBits, XorAt, Permute;
    if |key| != cfg.keyBytes || |nonce| != 16 {
      return Err;
    }
    BytesBitsConcat(cfg.iv + key, nonce);
    BytesBitsConcat(cfg.iv, key);
    var permuted := ApplyPermutation(BytesBits(cfg.iv + key + nonce), 12);
    var t := XorKey(permuted.value, 40 - cfg.keyBytes, key);
    r := Ok(t);
  }

  method FinalizeTag(cfg: ByteConfig, s: State, key: seq<Byte>) returns (tag: seq<Byte>)
    requires cfg.Valid() && |key| == cfg.keyBytes
    ensures |tag| == 16 && BytesBits(tag) == Finalize(cfg.Spec(), s, BytesBits(key))
  {
    hide BytesBits, XorAt, Permute, XorByte, RateBytes;
    var t := XorKey(s, 40 - 8 - cfg.keyBytes, key);
    var permuted := ApplyPermutation(t, 12);
    var image: seq<Byte> := RateBytes(permuted.value, 40);
    tag := XorBytes(image[24..40], key[|key| - 16..]);
    ImageSlice(permuted.value, 24, 40);
    BytesBitsSlice(key, |key| - 16, |key|);
    XorBytesBits(image[24..40], key[|key| - 16..]);
    assert key[|key| - 16..] == key[|key| - 16..|key|];
    assert permuted.value[192..320] == permuted.value[192..];
    assert BytesBits(key)[8 * (|key| - 16)..8 * |key|] == BytesBits(key)[8 * cfg.keyBytes - 128..];
  }

  // ------------------------------------------------ authenticated encryption

  datatype Encrypted = Encrypted(cipher: seq<Byte>, tag: seq<Byte>)

  method AeadEncrypt(cfg: ByteConfig, key: seq<Byte>, nonce: seq<Byte>, ad: seq<Byte>, plain: seq<Byte>)
    returns (r: Result<Encrypted>)
    requires cfg.Valid()
    ensures r.Err? <==> |key| != cfg.keyBytes || |nonce| != 16
    ensures r.Ok? ==>
              Sealed(BytesBits(r.value.cipher), BytesBits(r.value.tag))
              == Encrypt(cfg.Spec(), BytesBits(key), BytesBits(nonce), BytesBits(ad), BytesBits(plain))
    ensures r.Ok? ==> |r.value.cipher| == |plain| && |r.value.tag| == 16
  {
    hide BytesBits, Initialize, ProcessAd, EncryptText, Finalize;
    var init := InitializeState(cfg, key, nonce);
    if init.Err? {
      return Err;
    }
    var s := ProcessAssociatedData(cfg, init.value, ad);
    var t, cipher := EncryptPlaintext(cfg, s, plain);
    var tag := FinalizeTag(cfg, t, key);
    r := Ok(Encrypted(cipher, tag));
  }

  datatype Decrypted = Decrypted(plain: seq<Byte>, valid: bool, computedTag: seq<Byte>)

  lemma SameBytes(a: seq<Byte>, b: seq<Byte>)
    ensures BytesBits(a) == BytesBits(b) <==> a == b
  {
    if BytesBits(a) == BytesBits(b) {
      assert |a| == |b|;
      BytesRoundTrip(a);
      BytesRoundTrip(b);
    }
  }

  method AeadDecrypt(cfg: ByteConfig, key: seq<Byte>, nonce: seq<Byte>, ad: seq<Byte>, cipher: seq<Byte>,
                     tag: seq<Byte>)
    returns (r: Result<Decrypted>)
    requires cfg.Valid()
    ensures r.Err? <==> |tag| != 16 || |key| != cfg.keyBytes || |nonce| != 16
    ensures r.Ok? ==>
              Opened(BytesBits(r.value.plain), r.value.valid, BytesBits(r.value.computedTag))
              == Decrypt(cfg.Spec(), BytesBits(key), BytesBits(nonce), BytesBits(ad), BytesBits(cipher), BytesBits(tag))
  {
    hide BytesBits, Initialize, ProcessAd, DecryptText, Finalize;
    if |tag| != 16 {
      return Err;
    }
    var init := InitializeState(cfg, key, nonce);
    if init.Err? {
      return Err;
    }
    var s := ProcessAssociatedData(cfg, init.value, ad);
    var t, plain := DecryptCiphertext(cfg, s, cipher);
    var computed := FinalizeTag(cfg, t, key);
    SameBytes(computed, tag);
    r := Ok(Decrypted(plain, computed == tag, computed));
  }

  // ------------------------------------------------------- hash and XOF

  lemma SqueezeBlock(s: State, n: nat, inner: nat)
    requires inner <= 16
    ensures n <= 8 ==> Squeeze(s, 8 * n, inner) == BytesBits(RateBytes(s, 8)[..n])
    ensures n > 8 ==>
              Squeeze(s, 8 * n, inner)
              == BytesBits(RateBytes(s, 8)) + Squeeze(Permute(s, inner), 8 * (n - 8), inner)
  {
    hide Permute, BytesBits, RateBytes;
    RateBits(s, 8);
    if n <= 8 {
      BytesBitsSlice(RateBytes(s, 8), 0, n);
      assert s[..64][..8 * n] == s[..8 * n];
      assert RateBytes(s, 8)[0..n] == RateBytes(s, 8)[..n];
    }
  }

  method SqueezeBytes(s0: State, outputBytes: nat, inner: nat) returns (output: seq<Byte>)
    requires 1 <= inner <= 16
    ensures |output| == outputBytes && BytesBits(output) == Squeeze(s0, 8 * outputBytes, inner)
  {
    hide Permute, BytesBits, RateBytes, Squeeze;
    var s := s0;
    output := [];
    BytesBitsUnfold([]);
    while |output| < outputBytes
      invariant |output| < outputBytes ==>
                  Squeeze(s0, 8 * outputBytes, inner)
                    == BytesBits(output) + Squeeze(s, 8 * (outputBytes - |output|), inner)
      invariant |output| >= outputBytes ==> BytesBits(output[..outputBytes]) == Squeeze(s0, 8 * outputBytes, inner)
      decreases outputBytes - |output|
    {
      var left, block: seq<Byte> := outputBytes - |output|, RateBytes(s, 8);
      SqueezeBlock(s, left, inner);
      BytesBitsConcat(output, block);
      if |output| + 8 >= outputBytes {
        BytesBitsConcat(output, block[..left]);
        assert (output + block)[..outputBytes] == output + block[..left];
      }
      output := output + block;
      if |output| < outputBytes {
        var permuted := ApplyPermutation(s, inner);
        s := permuted.value;
      }
    }
    output := output[..outputBytes];
  }

  // The twelve-round squeeze of the model, with its length check.
  method Squeeze64(s: State, outputBytes: int) returns (r: Result<seq<Byte>>)
    ensures r.Err? <==> outputBytes <= 0
    ensures r.Ok? ==> |r.value| == outputBytes && BytesBits(r.value) == Squeeze(s, 8 * outputBytes, 12)
  {
    hide BytesBits, Squeeze;
    if outputBytes <= 0 {
      return Err;
    }
    var output := SqueezeBytes(s, outputBytes, 12);
    r := Ok(output);
  }

  method SpongeState(iv: seq<Byte>) returns (s: State)
    requires |iv| == 8
    ensures s == SpongeInit(BytesBits(iv))
  {
    hide Permute, BytesBits;
    BytesBitsConcat(iv, seq(32, _ => 0));
    ZeroBytes(32);
    var permuted := ApplyPermutation(BytesBits(iv + seq(32, _ => 0)), 12);
    s := permuted.value;
  }

  // The reference with a round count of its own for absorbing and squeezing.
  method HashXofReference(iv: seq<Byte>, message: seq<Byte>, outputBytes: nat, inner: nat) returns (output: seq<Byte>)
    requires |iv| == 8 && 1 <= inner <= 16
    ensures |output| == outputBytes
    ensures BytesBits(output) == HashXof(BytesBits(iv), BytesBits(message), 8 * outputBytes, inner)
  {
    hide Absorb, BytesBits, Squeeze, SpongeInit;
    var s := SpongeState(iv);
    s := AbsorbBytes(s, message, 8, inner, 12);
    output := SqueezeBytes(s, outputBytes, inner);
  }

  const HASH256_IV: seq<Byte> := [0x02, 0x00, 0xCC, 0x00, 0x01, 0x08, 0x00, 0x00]
  const XOF128_IV: seq<Byte> := [0x03, 0x00, 0xCC, 0x00, 0x00, 0x08, 0x00, 0x00]
  const CXOF128_IV: seq<Byte> := [0x04, 0x00, 0xCC, 0x00, 0x00, 0x08, 0x00, 0x00]

  method Hash256(message: seq<Byte>) returns (digest: seq<Byte>)
    ensures |digest| == 32 && BytesBits(digest) == HashXof(BytesBits(HASH256_IV), BytesBits(message), 256, 12)
  {
    hide Absorb, BytesBits, Squeeze, SpongeInit;
    var s := SpongeState(HASH256_IV);
    s := AbsorbBytes(s, message, 8, 12, 12);
    var output := Squeeze64(s, 32);
    digest := output.value;
  }

  method Xof128(message: seq<Byte>, outputBytes: int) returns (r: Result<seq<Byte>>)
    ensures r.Err? <==> outputBytes <= 0
    ensures r.Ok? ==> BytesBits(r.value) == HashXof(BytesBits(XOF128_IV), BytesBits(message), 8 * outputBytes, 12)
  {
    hide Absorb, BytesBits, Squeeze, SpongeInit;
    var s := SpongeState(XOF128_IV);
    s := AbsorbBytes(s, message, 8, 12, 12);
    r := Squeeze64(s, outputBytes);
  }

  method Cxof128(message: seq<Byte>, outputBytes: int, customization: seq<Byte>) returns (r: Result<seq<Byte>>)
    ensures r.Err? <==> |customization| > 256 || outputBytes <= 0
    ensures r.Ok? ==>
              BytesBits(r.value)
              == Cxof(BytesBits(CXOF128_IV), LengthWord(|customization|), BytesBits(customization), BytesBits(message),
                      8 * outputBytes)
  {
    hide Absorb, BytesBits, Squeeze, SpongeInit, BitsBytes, XorRate, XorAt, Permute;
    if |customization| > 256 {
      return Err;
    }
    var s := SpongeState(CXOF128_IV);
    var z0: seq<Byte> := BitsBytes(FromInt(8 * |customization|, 64), 8);
    BitStringsRoundTrip(FromInt(8 * |customization|, 64), 8);
    XorRateIsXor(s, z0);
    var permuted := ApplyPermutation(XorRate(s, z0), 12);
    s := AbsorbBytes(permuted.value, customization, 8, 12, 12);
    s := AbsorbBytes(s, message, 8, 12, 12);
    r := Squeeze64(s, outputBytes);
  }
}
