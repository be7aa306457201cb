// Splitting a string into rate blocks and padding the last one (SP 800-232,
// Algorithms 1 and 2), on bits and on bytes.
module ParsePad {
  import opened BitVectors
  import opened Bytes
  import opened Results
  import opened Arithmetic
  import Sponge

  datatype Parsed<T> = Parsed(full: seq<seq<T>>, final: seq<T>)

  function Flatten<T>(blocks: seq<seq<T>>): (r: seq<T>)
  {
    if |blocks| == 0 then [] else blocks[0] + Flatten(blocks[1..])
  }

  // What parse(X, r) promises.
  predicate Parses<T(==)>(x: seq<T>, rate: nat, p: Parsed<T>)
  {
    && (forall i :: 0 <= i < |p.full| ==> |p.full[i]| == rate)
    && |p.final| < rate
    && Flatten(p.full) + p.final == x
  }

  lemma {:induction false} FlattenLast<T>(blocks: seq<seq<T>>, b: seq<T>)
    ensures Flatten(blocks + [b]) == Flatten(blocks) + b
  {
    if |blocks| == 0 {
      assert blocks + [b] == [b];
      assert Flatten([b]) == b + Flatten<T>([]);
    } else {
      FlattenLast(blocks[1..], b);
      assert (blocks + [b])[1..] == blocks[1..] + [b];
    }
  }

  lemma FlattenUnfold<T>(blocks: seq<seq<T>>)
    requires |blocks| > 0
    ensures Flatten(blocks) == blocks[0] + Flatten(blocks[1..])
  {
  }

  lemma SameHead<T>(a: seq<T>, s: seq<T>, b: seq<T>, t: seq<T>)
    requires |a| == |b| && a + s == b + t
    ensures a == b && s == t
  {
    assert a == (a + s)[..|a|] && b == (b + t)[..|a|];
    assert s == (a + s)[|a|..] && t == (b + t)[|a|..];
  }

  // There is only one way to split a string.
  lemma {:induction false} ParseUnique<T>(x: seq<T>, rate: nat, p: Parsed<T>, q: Parsed<T>)
    requires Parses(x, rate, p) && Parses(x, rate, q)
    ensures p == q
    decreases |p.full|
  {
    hide Flatten;
    if |p.full| > 0 && |q.full| > 0 {
      FlattenUnfold(p.full);
      FlattenUnfold(q.full);
      var p', q' := Parsed(p.full[1..], p.final), Parsed(q.full[1..], q.final);
      assert p.full[0] + (Flatten(p'.full) + p.final) == x == q.full[0] + (Flatten(q'.full) + q.final);
      SameHead(p.full[0], Flatten(p'.full) + p.final, q.full[0], Flatten(q'.full) + q.final);
      ParseUnique(Flatten(p'.full) + p.final, rate, p', q');
      assert p.full == [p.full[0]] + p'.full && q.full == [q.full[0]] + q'.full;
    } else {
      LengthOfParse(x, rate, p);
      LengthOfParse(x, rate, q);
      FlattenEmpty<T>();
      assert p.full == [] == q.full;
      assert [] + p.final == p.final && [] + q.final == q.final;
    }
  }

  lemma FlattenEmpty<T>()
    ensures Flatten<T>([]) == []
  {
  }

  lemma LengthOfParse<T>(x: seq<T>, rate: nat, p: Parsed<T>)
    requires Parses(x, rate, p)
    ensures |p.full| > 0 ==> |x| >= rate
    ensures |p.full| == 0 ==> |x| < rate
  {
    if |p.full| > 0 {
      FlattenUnfold(p.full);
    }
  }

  // What is left of a parsed string from block k on.
  function Rest<T>(p: Parsed<T>, k: nat): seq<T>
    requires k <= |p.full|
  {
    Flatten(p.full[k..]) + p.final
  }

  lemma RestUnfolds<T>(x: seq<T>, rate: nat, p: Parsed<T>, k: nat)
    requires Parses(x, rate, p) && k <= |p.full|
    ensures k == 0 ==> Rest(p, k) == x
    ensures k < |p.full| ==> |p.full[k]| == rate && Rest(p, k) == p.full[k] + Rest(p, k + 1)
    ensures k == |p.full| ==> Rest(p, k) == p.final && |p.final| < rate
  {
    hide Flatten;
    if k == 0 {
      assert p.full[0..] == p.full;
    }
    if k < |p.full| {
      FlattenUnfold(p.full[k..]);
      assert p.full[k..][1..] == p.full[k + 1..];
      assert p.full[k] + Flatten(p.full[k + 1..]) + p.final == p.full[k] + (Flatten(p.full[k + 1..]) + p.final);
    } else {
      FlattenEmpty<T>();
      assert p.full[k..] == [];
      assert [] + p.final == p.final;
    }
  }

  method Parse<T(==)>(x: seq<T>, rate: int) returns (r: Result<Parsed<T>>)
    ensures r.Err? <==> rate <= 0
    ensures r.Ok? ==> Parses(x, rate, r.value)
  {
    hide Flatten;
    if rate <= 0 {
      return Err;
    }
    FlattenEmpty<T>();
    var fullCount := |x| / rate;
    var full: seq<seq<T>> := [];
    var blockIndex := 0;
    BlockFits(|x|, rate, fullCount);
    while blockIndex < fullCount
      invariant 0 <= blockIndex <= fullCount && |full| == blockIndex
      invariant 0 <= blockIndex * rate <= fullCount * rate <= |x|
      invariant forall i :: 0 <= i < blockIndex ==> |full[i]| == rate
      invariant Flatten(full) == x[..blockIndex * rate]
    {
      var start := blockIndex * rate;
      BlockFits(|x|, rate, blockIndex);
      NextBlock(x, rate, blockIndex, full);
      full := full + [x[start..start + rate]];
      blockIndex := blockIndex + 1;
    }
    var finalStart := fullCount * rate;
    assert x[..finalStart] + x[finalStart..] == x;
    r := Ok(Parsed(full, x[finalStart..]));
  }

  lemma NextBlock<T>(x: seq<T>, rate: nat, k: nat, full: seq<seq<T>>)
    requires k * rate + rate <= |x| && Flatten(full) == x[..k * rate]
    ensures (k + 1) * rate == k * rate + rate
    ensures Flatten(full + [x[k * rate..k * rate + rate]]) == x[..k * rate + rate]
  {
    hide Flatten;
    var start := k * rate;
    FlattenLast(full, x[start..start + rate]);
    assert x[..start] + x[start..start + rate] == x[..start + rate];
  }

  lemma BlockFits(len: nat, rate: int, k: nat)
    requires rate > 0 && k <= len / rate
    ensures 0 <= k * rate <= len
    ensures k < len / rate ==> k * rate + rate <= len / rate * rate
    ensures k == len / rate ==> len - k * rate < rate
  {
    var q := len / rate;
    DivisionMeans(len, rate);
    Distribute(q, k, rate);
    if k < q {
      AtLeast(q - k, rate);
    }
    AtLeast(k + 1, rate);
    Distribute(k + 1, 1, rate);
  }

  // pad(X, r): X || 1 || 0^j with the least j that completes a block.
  function PadBits(x: Bits, rate: nat): (r: Bits)
    requires rate > 0
    ensures |r| > |x| && r[..|x|] == x && r[|x|]
    ensures forall i :: |x| < i < |r| ==> !r[i]
  {
    x + [true] + Zeros((-|x| - 1) % rate)
  }

  function PadBytes(x: seq<Byte>, rate: int): Result<seq<Byte>>
  {
    if rate <= 0 || |x| >= rate then Err
    else Ok(x + [1] + seq(rate - |x| - 1, _ => 0))
  }

  // Padding completes exactly one more block than the message fills.
  lemma PadLength(x: Bits, rate: nat)
    requires rate > 0
    ensures |PadBits(x, rate)| == (|x| / rate + 1) * rate
  {
    var q, t := |x| / rate, |x| % rate;
    assert -|x| - 1 == -(q + 1) * rate + (rate - 1 - t);
    DivisionUnique(-|x| - 1, rate, -(q + 1), rate - 1 - t);
    assert |x| == q * rate + t;
    assert (q + 1) * rate == q * rate + rate;
  }

  lemma PadOfPartial(x: Bits, rate: nat)
    requires |x| < rate
    ensures PadBits(x, rate) == Sponge.Pad(x, rate)
  {
    DivisionUnique(-|x| - 1, rate, -1, rate - 1 - |x|);
  }

  // No two messages have the same padding.
  lemma PadInjective(x: Bits, y: Bits, rate: nat)
    requires rate > 0 && PadBits(x, rate) == PadBits(y, rate)
    ensures x == y
  {
    var p, q := PadBits(x, rate), PadBits(y, rate);
    assert p[|x|] && q[|y|];
    assert x == p[..|x|] && y == q[..|y|];
  }

  // The blocks of a parse, the last one padded, spell the padded message.
  lemma PaddedBlocks(x: Bits, rate: nat, p: Parsed<bool>)
    requires Parses(x, rate, p)
    ensures Flatten(p.full) + PadBits(p.final, rate) == PadBits(x, rate)
  {
    FlattenLength(p.full, rate);
    var n, k, f := |x|, |p.full|, |p.final|;
    assert n == k * rate + f;
    DivisionUnique(-f - 1, rate, -1, rate - 1 - f);
    assert -n - 1 == -(k + 1) * rate + (rate - 1 - f);
    DivisionUnique(-n - 1, rate, -(k + 1), rate - 1 - f);
    assert Flatten(p.full) + (p.final + [true] + Zeros(rate - 1 - f)) == x + [true] + Zeros(rate - 1 - f);
  }

  lemma {:induction false} FlattenLength<T>(blocks: seq<seq<T>>, rate: nat)
    requires forall i :: 0 <= i < |blocks| ==> |blocks[i]| == rate
    ensures |Flatten(blocks)| == |blocks| * rate
  {
    if |blocks| > 0 {
      FlattenLength(blocks[1..], rate);
      assert |blocks| * rate == rate + |blocks[1..]| * rate;
    }
  }

  function BlocksBits(blocks: seq<seq<Byte>>): (r: seq<Bits>)
    ensures |r| == |blocks| && forall i :: 0 <= i < |r| ==> r[i] == BytesBits(blocks[i])
  {
    seq(|blocks|, i requires 0 <= i < |blocks| => BytesBits(blocks[i]))
  }

  lemma {:induction false} FlattenBits(blocks: seq<seq<Byte>>)
    ensures Flatten(BlocksBits(blocks)) == BytesBits(Flatten(blocks))
  {
    hide BytesBits;
    if |blocks| == 0 {
      BytesBitsUnfold([]);
    } else {
      FlattenBits(blocks[1..]);
      BytesBitsConcat(blocks[0], Flatten(blocks[1..]));
      assert BlocksBits(blocks)[1..] == BlocksBits(blocks[1..]);
    }
  }

  // Splitting bytes and splitting their bits give the same blocks.
  lemma ParseAgrees(x: seq<Byte>, rate: nat, p: Parsed<Byte>, b: Parsed<bool>)
    requires Parses(x, rate, p) && Parses(BytesBits(x), 8 * rate, b)
    ensures b == Parsed(BlocksBits(p.full), BytesBits(p.final))
  {
    hide Flatten, BytesBits;
    FlattenBits(p.full);
    BytesBitsConcat(Flatten(p.full), p.final);
    ParseUnique(BytesBits(x), 8 * rate, b, Parsed(BlocksBits(p.full), BytesBits(p.final)));
  }

  lemma {:induction false} ZeroBytes(n: nat)
    ensures BytesBits(seq(n, _ => 0)) == Zeros(8 * n)
    decreases n
  {
    if n > 0 {
      ZeroBytes(n - 1);
      assert seq(n, _ => 0)[1..] == seq(n - 1, _ => 0);
      ByteZero();
    }
  }

  lemma ByteZero()
    ensures ByteBits(0) == Zeros(8) && ByteBits(1) == [true] + Zeros(7)
  {
    assert FromInt(0, 7) == Zeros(7) by { assert FromInt(0, 4) == Zeros(4); }
  }

  lemma PadTail(k: nat)
    ensures BytesBits([1] + seq(k, _ => 0)) == [true] + Zeros(8 * k + 7)
  {
    hide BytesBits, ByteBits;
    BytesBitsUnfold([1] + seq(k, _ => 0));
    assert ([1] + seq(k, _ => 0))[1..] == seq(k, _ => 0);
    ZeroBytes(k);
    ByteZero();
  }

  lemma PadBytesTail(x: seq<Byte>, rate: nat)
    requires |x| < rate
    ensures PadBytes(x, rate) == Ok(x + ([1] + seq(rate - |x| - 1, _ => 0)))
  {
    assert x + [1] + seq(rate - |x| - 1, _ => 0) == x + ([1] + seq(rate - |x| - 1, _ => 0));
  }

  lemma PadTailBits(b: Bits, rate: nat)
    requires |b| < rate
    ensures b + ([true] + Zeros(rate - |b| - 1)) == Sponge.Pad(b, rate)
  {
  }

  // Padding bytes and padding their bits give the same block.
  lemma PadAgrees(x: seq<Byte>, rate: nat)
    requires |x| < rate
    ensures PadBytes(x, rate).Ok?
    ensures BytesBits(PadBytes(x, rate).value) == PadBits(BytesBits(x), 8 * rate) == Sponge.Pad(BytesBits(x), 8 * rate)
  {
    hide BytesBits, PadBits, PadBytes, Sponge.Pad;
    PadTail(rate - |x| - 1);
    PadBytesTail(x, rate);
    BytesBitsConcat(x, [1] + seq(rate - |x| - 1, _ => 0));
    PadTailBits(BytesBits(x), 8 * rate);
    PadOfPartial(BytesBits(x), 8 * rate);
  }
}
