// The initial values (SP 800-232, appendix B): packed from the parameters of a
// variant, and the tables of the byte-oriented and bit-oriented code.
module InitialValues {
  import opened BitVectors
  import opened Bytes
  import opened Aead
  import opened Results
  import GoldenModel
  import ParsePad

  // A fixed-width number.
  datatype Field = Field(value: nat, width: nat) {
    predicate Fits()
    {
      value < Pow2(width)
    }
  }

  // The bitwise or of two numbers.
  function IntOr(a: nat, b: nat): nat
    decreases a + b
  {
    if a == 0 then b else if b == 0 then a
    else (if a % 2 == 1 || b % 2 == 1 then 1 else 0) + 2 * IntOr(a / 2, b / 2)
  }

  function Width(fields: seq<Field>): nat
  {
    if |fields| == 0 then 0 else fields[0].width + Width(fields[1..])
  }

  // The first field is the least significant.
  function Number(fields: seq<Field>): nat
  {
    if |fields| == 0 then 0 else fields[0].value + Pow2(fields[0].width) * Number(fields[1..])
  }

  // Disjoint bits add.
  lemma {:induction false} OrAdds(a: nat, b: nat, shift: nat)
    requires a < Pow2(shift)
    ensures IntOr(a, b * Pow2(shift)) == a + b * Pow2(shift)
    decreases shift
  {
    if shift > 0 && a > 0 && b > 0 {
      var c := b * Pow2(shift);
      assert c == 2 * (b * Pow2(shift - 1));
      OrAdds(a / 2, b, shift - 1);
    }
  }

  lemma {:induction false} NumberSnoc(fields: seq<Field>, f: Field)
    ensures Width(fields + [f]) == Width(fields) + f.width
    ensures Number(fields + [f]) == Number(fields) + f.value * Pow2(Width(fields))
  {
    if |fields| == 0 {
      assert fields + [f] == [f];
      assert Number([f]) == f.value + Pow2(f.width) * Number([]);
    } else {
      NumberSnoc(fields[1..], f);
      assert (fields + [f])[1..] == fields[1..] + [f];
      Pow2Sum(fields[0].width, Width(fields[1..]));
      Spread(Pow2(fields[0].width), Number(fields[1..]), f.value, Pow2(Width(fields[1..])));
    }
  }

  lemma Spread(p: nat, n: nat, v: nat, q: nat)
    ensures p * (n + v * q) == p * n + v * (p * q)
  {
    assert p * (v * q) == v * (p * q);
  }

  lemma NumberFits(n: nat, shift: nat, f: Field)
    requires n < Pow2(shift) && f.Fits()
    ensures n + f.value * Pow2(shift) < Pow2(shift + f.width)
  {
    Pow2Sum(shift, f.width);
    Monotone(f.value + 1, Pow2(f.width), Pow2(shift));
  }

  lemma Monotone(a: nat, b: nat, p: nat)
    requires a <= b
    ensures a * p <= b * p
  {
  }

  method PackLsf(fields: seq<Field>) returns (r: Result<nat>)
    requires forall i :: 0 <= i < |fields| ==> fields[i].Fits()
    ensures r.Ok? <==> Width(fields) == 64
    ensures r.Ok? ==> r.value == Number(fields) < Pow2(64)
  {
    hide IntOr, Pow2, Width, Number;
    var shift, value := 0, 0;
    PackedNone();
    for k := 0 to |fields|
      invariant shift == Width(fields[..k])
      invariant value == Number(fields[..k]) < Pow2(shift)
    {
      var f := fields[k];
      OrAdds(value, f.value, shift);
      NumberSnoc(fields[..k], f);
      NumberFits(value, shift, f);
      assert fields[..k] + [f] == fields[..k + 1];
      value := IntOr(value, f.value * Pow2(shift));
      shift := shift + f.width;
    }
    assert fields[..|fields|] == fields;
    r := if shift != 64 then Err else Ok(value);
  }

  lemma PackedNone()
    ensures Width([]) == 0 && Number([]) == 0 < Pow2(0)
  {
  }

  // ---------------------------------------------------------- the variants

  datatype IvParams = IvParams(v: nat, a: nat, b: nat, t: nat, rateBytes: nat) {
    predicate Fits()
    {
      v < 256 && a < 16 && b < 16 && t < 65536 && rateBytes < 256
    }

    function Fields(): seq<Field>
    {
      [Field(v, 8), Field(0, 8), Field(a, 4), Field(b, 4), Field(t, 16), Field(rateBytes, 8), Field(0, 16)]
    }
  }

  const AEAD128 := IvParams(1, 12, 8, 128, 16)
  const HASH256 := IvParams(2, 12, 12, 256, 8)
  const XOF128 := IvParams(3, 12, 12, 0, 8)
  const CXOF128 := IvParams(4, 12, 12, 0, 8)

  // V, twelve rounds, the rounds between blocks, the tag or output length in bits
  // and the rate in bytes, each at its place in the word.
  function FieldFormula(p: IvParams): nat
  {
    p.v + 0x1_0000 * p.a + 0x10_0000 * p.b + 0x100_0000 * p.t + 0x100_0000_0000 * p.rateBytes
  }

  lemma FieldFirst(fields: seq<Field>, k: nat)
    requires k < |fields|
    ensures Width(fields[k..]) == fields[k].width + Width(fields[k + 1..])
    ensures Number(fields[k..]) == fields[k].value + Pow2(fields[k].width) * Number(fields[k + 1..])
  {
    assert fields[k..][1..] == fields[k + 1..];
  }

  lemma Powers()
    ensures Pow2(4) == 16 && Pow2(8) == 256 && Pow2(16) == 0x1_0000
  {
    SmallPowers();
    Pow2Sum(8, 8);
  }

  lemma FieldsInPlace(p: IvParams)
    requires p.Fits()
    ensures Width(p.Fields()) == 64 && Number(p.Fields()) == FieldFormula(p)
    ensures forall i :: 0 <= i < |p.Fields()| ==> p.Fields()[i].Fits()
  {
    hide Width, Number, Pow2;
    var f := p.Fields();
    Powers();
    PackedNone();
    assert f[0..] == f && f[7..] == [];
    FieldFirst(f, 6);
    FieldFirst(f, 5);
    assert Number(f[5..]) == p.rateBytes && Width(f[5..]) == 24;
    FieldFirst(f, 4);
    assert Number(f[4..]) == p.t + 0x1_0000 * p.rateBytes && Width(f[4..]) == 40;
    FieldFirst(f, 3);
    FieldFirst(f, 2);
    assert Number(f[2..]) == p.a + 16 * (p.b + 16 * Number(f[4..])) && Width(f[2..]) == 48;
    FieldFirst(f, 1);
    FieldFirst(f, 0);
  }

  method Build(p: IvParams) returns (iv: nat)
    requires p.Fits()
    ensures iv == FieldFormula(p) < Pow2(64)
  {
    hide FieldFormula, Width, Number, Pow2;
    FieldsInPlace(p);
    var r := PackLsf(p.Fields());
    iv := r.value;
  }

  // ------------------------------------------------------------ the tables

  function Little(b: seq<Byte>): nat
  {
    if |b| == 0 then 0 else b[0] as nat + 256 * Little(b[1..])
  }

  lemma {:induction false} LittleEndian(b: seq<Byte>)
    ensures Value(BytesBits(b)) == Little(b)
  {
    hide BytesBits, ByteBits, Value, Little;
    BytesBitsUnfold(b);
    LittleFirst(b);
    if |b| == 0 {
      ValueZeros(0);
      assert Zeros(0) == [];
    } else {
      LittleEndian(b[1..]);
      ByteRoundTrip(b[0]);
      ValueConcat(ByteBits(b[0]), BytesBits(b[1..]));
      Powers();
    }
  }

  lemma LittleFirst(b: seq<Byte>)
    ensures Little(b) == if |b| == 0 then 0 else b[0] as nat + 256 * Little(b[1..])
  {
  }

  lemma EightBytes(b: seq<Byte>)
    requires |b| == 8
    ensures Value(BytesBits(b))
         == b[0] as nat + 0x100 * b[1] as nat + 0x1_0000 * b[2] as nat + 0x100_0000 * b[3] as nat
            + 0x1_0000_0000 * (b[4] as nat + 0x100 * b[5] as nat + 0x1_0000 * b[6] as nat + 0x100_0000 * b[7] as nat)
  {
    hide BytesBits, Value, Little;
    LittleEndian(b);
    assert b[0..] == b;
    for k := 0 to 8
      invariant forall i :: 0 <= i < k ==> Little(b[i..]) == b[i] as nat + 256 * Little(b[i + 1..])
    {
      LittleFirst(b[k..]);
      assert b[k..][1..] == b[k + 1..];
    }
    LittleFirst(b[8..]);
  }

  // The initial value of authenticated encryption says how its configuration
  // works: rounds between blocks, tag bits and rate.
  lemma AeadIv()
    ensures Value(NIST_AEAD128.iv) == FieldFormula(AEAD128) == 0x0000_1000_808C_0001
    ensures AEAD128 == IvParams(1, 12, NIST_AEAD128.rounds, 128, NIST_AEAD128.rate / 8)
  {
    hide BytesBits, Value;
    EightBytes([0x01, 0x00, 0x8C, 0x80, 0x00, 0x10, 0x00, 0x00]);
  }

  lemma HashIvs()
    ensures Value(BytesBits(GoldenModel.HASH256_IV)) == FieldFormula(HASH256) == 0x0000_0801_00CC_0002
    ensures Value(BytesBits(GoldenModel.XOF128_IV)) == FieldFormula(XOF128) == 0x0000_0800_00CC_0003
    ensures Value(BytesBits(GoldenModel.CXOF128_IV)) == FieldFormula(CXOF128) == 0x0000_0800_00CC_0004
  {
    hide BytesBits, Value;
    EightBytes(GoldenModel.HASH256_IV);
    EightBytes(GoldenModel.XOF128_IV);
    EightBytes(GoldenModel.CXOF128_IV);
  }

  // The submission's parameter sets announce themselves byte by byte.
  predicate Announces(c: Config)
  {
    && c.keyBits < 256 && c.rate < 256 && c.rounds < 256 && |c.iv| >= 32
    && c.iv == BytesBits([c.keyBits, c.rate, 12, c.rounds]) + Zeros(|c.iv| - 32)
  }

  lemma LegacyIvs()
    ensures Announces(LEGACY_ASCON128) && Announces(LEGACY_ASCON128A) && Announces(LEGACY_ASCON80PQ)
  {
    hide BytesBits;
    ZeroTail([0x80, 0x40, 0x0C, 0x06]);
    ZeroTail([0x80, 0x80, 0x0C, 0x08]);
    assert [0x80, 0x40, 0x0C, 0x06] + [0, 0, 0, 0] == [0x80, 0x40, 0x0C, 0x06, 0, 0, 0, 0];
    assert [0x80, 0x80, 0x0C, 0x08] + [0, 0, 0, 0] == [0x80, 0x80, 0x0C, 0x08, 0, 0, 0, 0];
    assert BytesBits([0xA0, 0x40, 0x0C, 0x06]) + Zeros(0) == BytesBits([0xA0, 0x40, 0x0C, 0x06]);
  }

  lemma ZeroTail(b: seq<Byte>)
    ensures BytesBits(b + [0, 0, 0, 0]) == BytesBits(b) + Zeros(32)
  {
    hide BytesBits;
    BytesBitsConcat(b, [0, 0, 0, 0]);
    ParsePad.ZeroBytes(4);
    assert seq(4, _ => 0) == [0, 0, 0, 0];
  }
}
