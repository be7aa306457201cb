// The compiler support routines of the freestanding firmware: division,
// multiplication and shifts built from bit operations, and memory moves.
module Runtime {
  import opened BitVectors
  import opened Arithmetic
  import opened Bytes

  // ------------------------------------------------------------- division

  // One step: the remainder takes in the next bit of the numerator.
  function ShiftIn(r: Bits, bit: bool): (s: Bits)
    requires |r| > 0
    ensures |s| == |r|
  {
    Or(Shl(r, 1), [bit] + Zeros(|r| - 1))
  }

  lemma ShiftInBits(r: Bits, bit: bool)
    requires |r| > 0
    ensures ShiftIn(r, bit) == [bit] + r[..|r| - 1]
  {
  }

  lemma TopBit(r: Bits)
    requires |r| > 0
    ensures Value(r) == Value(r[..|r| - 1]) + (if r[|r| - 1] then Pow2(|r| - 1) else 0)
  {
    hide Pow2, Value;
    var n := |r| - 1;
    assert r == r[..n] + [r[n]];
    ValueConcat(r[..n], [r[n]]);
    OneBit(r[n]);
  }

  lemma OneBit(b: bool)
    ensures Value([b]) == Bit(b)
  {
  }

  lemma TailValue(b: bool, a: Bits)
    ensures Value([b] + a) == Bit(b) + 2 * Value(a)
  {
    assert ([b] + a)[1..] == a;
  }

  // Nothing is lost while the top bit is clear.
  lemma ShiftInValue(r: Bits, bit: bool)
    requires |r| > 0 && 2 * Value(r) < Pow2(|r|)
    ensures Value(ShiftIn(r, bit)) == 2 * Value(r) + Bit(bit)
  {
    hide Value, ShiftIn;
    assert Pow2(|r|) == 2 * Pow2(|r| - 1);
    TopBit(r);
    ShiftInBits(r, bit);
    TailValue(bit, r[..|r| - 1]);
  }

  lemma SuffixValue(a: Bits, i: nat)
    requires i < |a|
    ensures Value(a[i..]) == Bit(a[i]) + 2 * Value(a[i + 1..])
  {
    assert a[i..][1..] == a[i + 1..];
  }

  lemma {:induction false} Pow2Monotone(a: nat, b: nat)
    requires a <= b
    ensures Pow2(a) <= Pow2(b)
    decreases b - a
  {
    if a < b {
      Pow2Monotone(a, b - 1);
    }
  }

  lemma QuotientStep(q: nat, d: nat, r: nat, bit: nat, prefix: nat)
    requires prefix == q * d + r
    ensures bit + 2 * prefix == (2 * q) * d + (2 * r + bit)
    ensures bit + 2 * prefix == (2 * q + 1) * d + (2 * r + bit) - d
  {
  }

  lemma SetBit(q: Bits, i: nat)
    requires i < |q| && !q[i]
    ensures Or(q, Shl(One(|q|), i)) == q[i := true]
  {
    OneHot(|q|, i);
  }

  // The bits of the numerator from i on are q * den + r, and r < den.
  ghost predicate Divided(num: Bits, den: Bits, q: Bits, r: Bits, i: nat)
    requires |num| == |q| && i <= |num|
  {
    && Value(num[i..]) == Value(q[i..]) * Value(den) + Value(r)
    && Value(r) < Value(den)
    && forall k :: 0 <= k < i ==> !q[k]
  }

  // Restoring division, one numerator bit at a time from the top.
  method DivMod(num: Bits, den: Bits) returns (q: Bits, r: Bits)
    requires |num| == |den| > 0
    ensures |q| == |r| == |num|
    ensures Value(den) == 0 ==> q == Ones(|num|) && r == num
    ensures Value(den) != 0 ==> Value(num) == Value(q) * Value(den) + Value(r) && Value(r) < Value(den)
  {
    hide Value, Divided;
    var w := |num|;
    if Value(den) == 0 {
      return Ones(w), num;
    }
    q, r := Zeros(w), Zeros(w);
    var i := w - 1;
    DivisionStarts(num, den);
    while i >= 0
      invariant -1 <= i < w && |q| == w && |r| == w
      invariant Divided(num, den, q, r, i + 1)
    {
      DivisionStep(num, den, q, r, i);
      r := ShiftIn(r, num[i]);
      if Value(r) >= Value(den) {
        r := FromInt(Value(r) - Value(den), w);
        q := Or(q, Shl(One(w), i));
      }
      i := i - 1;
    }
    DivisionEnds(num, den, q, r);
  }

  lemma DivisionStarts(num: Bits, den: Bits)
    requires Value(den) > 0
    ensures Divided(num, den, Zeros(|num|), Zeros(|num|), |num|)
  {
    ValueZeros(|num|);
    assert num[|num|..] == [] == Zeros(|num|)[|num|..];
  }

  lemma DivisionEnds(num: Bits, den: Bits, q: Bits, r: Bits)
    requires |num| == |q| && Divided(num, den, q, r, 0)
    ensures Value(num) == Value(q) * Value(den) + Value(r) && Value(r) < Value(den)
  {
    assert num[0..] == num && q[0..] == q;
  }

  // The remainder is at most the numerator bits consumed so far, so the shift
  // never pushes a one out.
  lemma RemainderFits(num: Bits, den: Bits, q: Bits, r: Bits, i: nat)
    requires |num| == |q| == |r| && i < |num| && Divided(num, den, q, r, i + 1)
    ensures 2 * Value(r) < Pow2(|num|)
  {
    hide Value;
    ValueBelow(num[i + 1..]);
    Pow2Monotone(|num| - i - 1, |num| - 1);
    assert Value(q[i + 1..]) * Value(den) >= 0;
    assert Pow2(|num|) == 2 * Pow2(|num| - 1);
  }

  lemma DivisionStep(num: Bits, den: Bits, q: Bits, r: Bits, i: nat)
    requires |num| == |den| == |q| == |r| && i < |num| && Divided(num, den, q, r, i + 1)
    ensures var s := ShiftIn(r, num[i]);
            if Value(s) >= Value(den)
            then Divided(num, den, Or(q, Shl(One(|q|), i)), FromInt(Value(s) - Value(den), |q|), i)
            else Divided(num, den, q, s, i)
  {
    hide Value, Shl, Or, One, ShiftIn, FromInt;
    var s, p := ShiftIn(r, num[i]), Value(q[i + 1..]);
    RemainderFits(num, den, q, r, i);
    ShiftInValue(r, num[i]);
    SuffixValue(num, i);
    QuotientStep(p, Value(den), Value(r), Bit(num[i]), Value(num[i + 1..]));
    if Value(s) >= Value(den) {
      SetBit(q, i);
      SetBitValue(q, i);
      ValueBelow(s);
      ValueFromInt(Value(s) - Value(den), |q|);
    } else {
      SuffixValue(q, i);
    }
  }

  lemma SetBitValue(q: Bits, i: nat)
    requires i < |q|
    ensures Value(q[i := true][i..]) == 1 + 2 * Value(q[i + 1..])
  {
    hide Value;
    SuffixValue(q[i := true], i);
    assert q[i := true][i + 1..] == q[i + 1..];
  }

  // ------------------------------------------------------ signed division

  // Two's complement.
  function Signed(a: Bits): int
    requires |a| > 0
  {
    Value(a) - (if a[|a| - 1] then Pow2(|a|) else 0)
  }

  // The unary minus of a machine word, wrapping.
  function Negate(a: Bits): (r: Bits)
    ensures |r| == |a|
  {
    ValueBelow(a);
    FromInt(if Value(a) == 0 then 0 else Pow2(|a|) - Value(a), |a|)
  }

  function Magnitude(a: Bits): (r: Bits)
    requires |a| > 0
    ensures |r| == |a|
  {
    if Signed(a) < 0 then Negate(a) else a
  }

  // Division as C defines it: towards zero.
  function Truncated(a: int, b: int): int
    requires b != 0
  {
    var m: int := Abs(a) / Abs(b);
    if (a < 0) != (b < 0) then -m else m
  }

  function Abs(a: int): nat { if a < 0 then -a else a }

  // The magnitude of the most negative word.
  function Half(w: nat): int
    requires w > 0
  {
    Pow2(w - 1)
  }

  lemma SignBit(a: Bits)
    requires |a| > 0
    ensures Signed(a) < 0 <==> a[|a| - 1]
    ensures -Half(|a|) <= Signed(a) < Half(|a|)
    ensures a[|a| - 1] <==> Value(a) >= Half(|a|)
    ensures Pow2(|a|) == 2 * Half(|a|)
  {
    hide Value;
    TopBit(a);
    ValueBelow(a[..|a| - 1]);
  }

  lemma NegateValue(a: Bits)
    ensures Value(Negate(a)) == if Value(a) == 0 then 0 else Pow2(|a|) - Value(a)
  {
    hide Value, FromInt;
    ValueBelow(a);
    ValueFromInt(if Value(a) == 0 then 0 else Pow2(|a|) - Value(a), |a|);
  }

  // The magnitude of every word, the most negative one included, is right as
  // an unsigned number.
  lemma MagnitudeValue(a: Bits)
    requires |a| > 0
    ensures Value(Magnitude(a)) == Abs(Signed(a))
    ensures Signed(a) == 0 <==> Value(a) == 0
  {
    hide Value, Negate, Half;
    SignBit(a);
    NegateValue(a);
    ValueBelow(a);
  }

  // A word negated stands for the negative number while that is in range.
  lemma NegateSigned(a: Bits)
    requires |a| > 0 && Value(a) <= Half(|a|)
    ensures Signed(Negate(a)) == -(Value(a) as int)
  {
    hide Value, Negate, Half;
    NegateValue(a);
    SignBit(Negate(a));
    SignBit(a);
  }

  lemma NegateTwice(a: Bits)
    ensures Negate(Negate(a)) == a
  {
    hide Value, FromInt, Negate;
    NegateValue(a);
    NegateValue(Negate(a));
    ValueBelow(a);
    SameValue(a, Negate(Negate(a)));
  }

  lemma SameValue(a: Bits, b: Bits)
    requires |a| == |b| && Value(a) == Value(b)
    ensures a == b
  {
    FromIntValue(a);
    FromIntValue(b);
  }

  lemma {:induction false} ValueOnes(n: nat)
    ensures Value(Ones(n)) == Pow2(n) - 1
    decreases n
  {
    if n > 0 {
      ValueOnes(n - 1);
      assert Ones(n)[1..] == Ones(n - 1);
    }
  }

  lemma MagnitudesDivide(a: int, b: int, q: nat, r: nat)
    requires b != 0 && Abs(a) == q * Abs(b) + r && r < Abs(b)
    ensures Truncated(a, b) == if (a < 0) != (b < 0) then -(q as int) else q
    ensures a == Truncated(a, b) * b + (if a < 0 then -(r as int) else r)
  {
    DivisionUnique(Abs(a), Abs(b), q, r);
    SignsMultiply(q, b);
  }

  lemma QuotientFits(a: int, b: int, q: nat, r: nat, half: int)
    requires b != 0 && -half <= a < half && -half <= b < half
    requires Abs(a) == q * Abs(b) + r && r < Abs(b)
    ensures q <= half && r < half
    ensures (a < 0) == (b < 0) && !(a == -half && b == -1) ==> q < half
    ensures a == -half && b == -1 ==> q == half && r == 0
  {
    if Abs(b) >= 2 {
      GrowsTwofold(q, Abs(b));
    } else {
      assert q * Abs(b) == q;
    }
  }

  lemma GrowsTwofold(q: nat, b: nat)
    requires b >= 2
    ensures q * b >= 2 * q
  {
  }

  lemma SignsMultiply(q: int, b: int)
    ensures -q * b == -(q * b) && -q * -b == q * b && q * -b == -(q * b)
  {
  }

  // Quotient and remainder of signed words.
  method SignedDivMod(num: Bits, den: Bits) returns (q: Bits, r: Bits)
    requires |num| == |den| > 1
    ensures |q| == |r| == |num|
    ensures Signed(den) != 0 && !(Signed(num) == -Half(|num|) && Signed(den) == -1) ==>
              && Signed(q) == Truncated(Signed(num), Signed(den))
              && Signed(num) == Signed(q) * Signed(den) + Signed(r)
    ensures Signed(num) == -Half(|num|) && Signed(den) == -1 ==> q == num && Signed(r) == 0
    ensures Signed(den) == 0 ==> Signed(q) == (if Signed(num) < 0 then 1 else -1) && r == num
  {
    hide Value, Negate, Magnitude, Signed, Half;
    var neg := (Signed(num) < 0) != (Signed(den) < 0);
    var uq, ur := DivMod(Magnitude(num), Magnitude(den));
    q := if neg then Negate(uq) else uq;
    r := if Signed(num) < 0 then Negate(ur) else ur;
    MagnitudeValue(num);
    MagnitudeValue(den);
    if Signed(den) == 0 {
      DividedByZero(num);
    } else {
      Resigned(num, den, uq, ur);
    }
  }

  lemma DividedByZero(num: Bits)
    requires |num| > 1
    ensures Signed(Negate(Ones(|num|))) == 1 && Signed(Ones(|num|)) == -1
    ensures (if Signed(num) < 0 then Negate(Magnitude(num)) else Magnitude(num)) == num
  {
    hide Value, Negate;
    ValueOnes(|num|);
    NegateValue(Ones(|num|));
    SignBit(Negate(Ones(|num|)));
    NegateTwice(num);
  }

  lemma Resigned(num: Bits, den: Bits, uq: Bits, ur: Bits)
    requires |num| == |den| == |uq| == |ur| > 0 && Signed(den) != 0
    requires Abs(Signed(num)) == Value(uq) * Abs(Signed(den)) + Value(ur) && Value(ur) < Abs(Signed(den))
    ensures var q := if (Signed(num) < 0) != (Signed(den) < 0) then Negate(uq) else uq;
            var r := if Signed(num) < 0 then Negate(ur) else ur;
            if Signed(num) == -Half(|num|) && Signed(den) == -1 then q == num && Signed(r) == 0
            else Signed(q) == Truncated(Signed(num), Signed(den)) && Signed(num) == Signed(q) * Signed(den) + Signed(r)
  {
    hide Value, Negate, Truncated, Half;
    SignBit(num);
    SignBit(den);
    MagnitudesDivide(Signed(num), Signed(den), Value(uq), Value(ur));
    QuotientFits(Signed(num), Signed(den), Value(uq), Value(ur), Half(|num|));
    NegateSigned(uq);
    NegateSigned(ur);
    SignBit(uq);
    SignBit(ur);
    if Signed(num) == -Half(|num|) && Signed(den) == -1 {
      SameValue(uq, num);
    }
  }

  // -------------------------------------------------------- multiplication

  const TWO32: nat := 0x1_0000_0000
  const TWO64: nat := 0x1_0000_0000_0000_0000

  lemma HalveMultiplier(x: nat, y: nat)
    ensures x * y == (if y % 2 == 1 then x else 0) + (2 * x) * (y / 2)
  {
    assert y == 2 * (y / 2) + y % 2;
    Spread(x, y / 2, y % 2);
  }

  lemma Spread(x: nat, h: nat, b: nat)
    requires b < 2
    ensures x * (2 * h + b) == (if b == 1 then x else 0) + (2 * x) * h
  {
    assert x * (2 * h) == (2 * x) * h;
    assert x * (2 * h + b) == x * (2 * h) + x * b;
  }

  lemma ProductMonotone(a: nat, b: nat, c: nat)
    requires b <= c
    ensures a * b <= a * c
  {
    Distribute(c, b, a);
    if b < c && a > 0 {
      AtLeast(c - b, a);
    }
  }

  lemma ProductBelow(a: nat, b: nat)
    requires a < TWO32 && b < TWO32
    ensures a * b < TWO64
  {
    ProductMonotone(a, b, TWO32 - 1);
  }

  // One round keeps acc + x * y, and wraps nothing that is still needed.
  lemma MultiplyStep(acc: nat, x: nat, y: nat, product: nat)
    requires acc + x * y == product < TWO64 && y > 0
    ensures var acc' := if y % 2 == 1 then (acc + x) % TWO64 else acc;
            acc' + ((x + x) % TWO64) * (y / 2) == product
  {
    var h, x2 := y / 2, 2 * x;
    HalveMultiplier(x, y);
    if h > 0 {
      AtLeast(h, x2);
      assert x2 < TWO64;
      assert (x + x) % TWO64 == x2;
    } else {
      assert x2 * h == 0 && ((x + x) % TWO64) * h == 0;
    }
  }

  // Shift and add; the sums wrap at 64 bits but never have to.
  method Multiply32(a: nat, b: nat) returns (acc: nat)
    requires a < TWO32 && b < TWO32
    ensures acc == a * b
  {
    var x: nat, y: nat := a, b;
    acc := 0;
    ProductBelow(a, b);
    while y != 0
      invariant acc + x * y == a * b
      decreases y
    {
      MultiplyStep(acc, x, y, a * b);
      if y % 2 == 1 {
        acc := (acc + x) % TWO64;
      }
      x := (x + x) % TWO64;
      y := y / 2;
    }
  }

  lemma ExpandProduct(ah: nat, al: nat, bh: nat, bl: nat)
    ensures (ah * TWO32 + al) * (bh * TWO32 + bl) == (ah * bh) * TWO64 + (al * bh + ah * bl) * TWO32 + al * bl
  {
    assert (ah * TWO32 + al) * (bh * TWO32 + bl)
        == (ah * TWO32) * (bh * TWO32) + (ah * TWO32) * bl + al * (bh * TWO32) + al * bl by {
      Foil(ah * TWO32, al, bh * TWO32, bl);
    }
    assert (ah * TWO32) * bl == (ah * bl) * TWO32;
    assert al * (bh * TWO32) == (al * bh) * TWO32;
    assert (ah * TWO32) * (bh * TWO32) == (ah * bh) * TWO64;
  }

  lemma Foil(a: nat, b: nat, c: nat, d: nat)
    ensures (a + b) * (c + d) == a * c + a * d + b * c + b * d
  {
  }

  // The low word of a product from three half-word products.
  method Multiply64(a: nat, b: nat) returns (r: nat)
    requires a < TWO64 && b < TWO64
    ensures r == (a * b) % TWO64
  {
    var al, ah, bl, bh := a % TWO32, a / TWO32, b % TWO32, b / TWO32;
    var ll := Multiply32(al, bl);
    var lh := Multiply32(al, bh);
    var hl := Multiply32(ah, bl);
    r := (ll + ((lh + hl) % TWO64 * TWO32) % TWO64) % TWO64;
    ExpandProduct(ah, al, bh, bl);
    CrossTermsWrap(ah * bh, lh + hl, ll);
  }

  // Dropping multiples of 2^64 on the way does not change the low word.
  lemma CrossTermsWrap(high: nat, cross: nat, low: nat)
    ensures (low + (cross % TWO64 * TWO32) % TWO64) % TWO64 == (high * TWO64 + cross * TWO32 + low) % TWO64
  {
    var k1, c := cross / TWO64, cross % TWO64;
    var k2, d := c * TWO32 / TWO64, c * TWO32 % TWO64;
    var k3, e := (low + d) / TWO64, (low + d) % TWO64;
    assert high * TWO64 + cross * TWO32 + low == (high + k1 * TWO32 + k2 + k3) * TWO64 + e;
    DivisionUnique(high * TWO64 + cross * TWO32 + low, TWO64, high + k1 * TWO32 + k2 + k3, e);
  }

  // ---------------------------------------------------------------- shifts

  function ArithmeticShr(a: Bits, n: nat): (r: Bits)
    ensures |r| == |a|
    ensures forall i {:trigger r[i]} :: 0 <= i < |a| ==>
              r[i] == if i + n < |a| then a[i + n] else a[|a| - 1]
  {
    seq(|a|, i requires 0 <= i < |a| => if i + n < |a| then a[i + n] else a[|a| - 1])
  }

  // The three 64-bit shifts on a low and a high half.
  function ShiftLeft64(v: Word, shift: int): Word
  {
    var s, lo, hi := shift % 64, v[..32], v[32..];
    if s == 0 then v
    else if s < 32 then Shl(lo, s) + Or(Shl(hi, s), Shr(lo, 32 - s))
    else Zeros(32) + Shl(lo, s - 32)
  }

  function ShiftRight64(v: Word, shift: int): Word
  {
    var s, lo, hi := shift % 64, v[..32], v[32..];
    if s == 0 then v
    else if s < 32 then Or(Shr(lo, s), Shl(hi, 32 - s)) + Shr(hi, s)
    else Shr(hi, s - 32) + Zeros(32)
  }

  function ArithmeticShiftRight64(v: Word, shift: int): Word
  {
    var s, lo, hi := shift % 64, v[..32], v[32..];
    if s == 0 then v
    else if s < 32 then Or(Shr(lo, s), Shl(hi, 32 - s)) + ArithmeticShr(hi, s)
    else ArithmeticShr(hi, s - 32) + ArithmeticShr(hi, 31)
  }

  lemma HalvesShiftLeft(v: Word, shift: int)
    ensures ShiftLeft64(v, shift) == Shl(v, shift % 64)
  {
  }

  lemma HalvesShiftRight(v: Word, shift: int)
    ensures ShiftRight64(v, shift) == Shr(v, shift % 64)
  {
  }

  lemma HalvesShiftArithmetic(v: Word, shift: int)
    ensures ArithmeticShiftRight64(v, shift) == ArithmeticShr(v, shift % 64)
  {
    hide ArithmeticShr;
    var s := shift % 64;
    if 0 < s < 32 {
      ShiftsWithinHalves(v, s);
    } else if s >= 32 {
      ShiftsAcrossHalves(v, s);
    } else {
      assert ArithmeticShr(v, 0) == v;
    }
  }

  lemma ShiftsWithinHalves(v: Word, s: nat)
    requires 0 < s < 32
    ensures Or(Shr(v[..32], s), Shl(v[32..], 32 - s)) + ArithmeticShr(v[32..], s) == ArithmeticShr(v, s)
  {
    hide ArithmeticShr, Shl, Shr, Or;
  }

  lemma ShiftsAcrossHalves(v: Word, s: nat)
    requires 32 <= s < 64
    ensures ArithmeticShr(v[32..], s - 32) + ArithmeticShr(v[32..], 31) == ArithmeticShr(v, s)
  {
    hide ArithmeticShr;
  }

  // A left shift multiplies, modulo the word.
  lemma ShlMultiplies(v: Bits, s: nat)
    requires s <= |v|
    ensures Value(Shl(v, s)) == (Value(v) * Pow2(s)) % Pow2(|v|)
  {
    hide Value, Pow2;
    var n := |v| - s;
    var low, top := Value(v[..n]), Value(v[n..]);
    assert v == v[..n] + v[n..] && Shl(v, s) == Zeros(s) + v[..n];
    ValueConcat(v[..n], v[n..]);
    ValueConcat(Zeros(s), v[..n]);
    ValueZeros(s);
    ValueBelow(Shl(v, s));
    Pow2Sum(n, s);
    ShiftedSum(low, top, Pow2(n), Pow2(s));
    DivisionUnique(Value(v) * Pow2(s), Pow2(|v|), top, Value(Shl(v, s)));
  }

  lemma ShiftedSum(low: nat, top: nat, n: nat, s: nat)
    ensures (low + n * top) * s == top * (n * s) + s * low
  {
    assert (low + n * top) * s == low * s + n * top * s;
    assert n * top * s == top * (n * s);
  }

  // A right shift divides, rounding down; so does the arithmetic one on
  // signed words.
  lemma ShrDivides(v: Bits, s: nat)
    requires s <= |v|
    ensures Value(Shr(v, s)) == Value(v) / Pow2(s)
  {
    hide Value, Pow2, Shr;
    Halved(v, s);
    ZeroExtension(v[s..], s);
    SplitValue(v, s);
    ValueBelow(v[..s]);
    DivisionUnique(Value(v), Pow2(s), Value(v[s..]), Value(v[..s]));
  }

  lemma ZeroExtension(a: Bits, n: nat)
    ensures Value(a + Zeros(n)) == Value(a)
  {
    hide Value, Pow2;
    ValueConcat(a, Zeros(n));
    ValueZeros(n);
  }

  lemma SplitValue(v: Bits, s: nat)
    requires s <= |v|
    ensures Value(v) == Value(v[s..]) * Pow2(s) + Value(v[..s])
  {
    hide Value, Pow2;
    assert v == v[..s] + v[s..];
    ValueConcat(v[..s], v[s..]);
  }

  lemma Halved(v: Bits, s: nat)
    requires s <= |v|
    ensures v == v[..s] + v[s..] && Shr(v, s) == v[s..] + Zeros(s)
    ensures s < |v| ==> ArithmeticShr(v, s) == v[s..] + (if v[|v| - 1] then Ones(s) else Zeros(s))
  {
  }

  lemma ArithmeticShrDivides(v: Bits, s: nat)
    requires s < |v|
    ensures Signed(ArithmeticShr(v, s)) == Signed(v) / Pow2(s)
  {
    hide Value, Pow2, ArithmeticShr, Shr;
    var n := |v| - s;
    var sign := v[|v| - 1];
    Halved(v, s);
    ValueConcat(v[..s], v[s..]);
    ValueConcat(v[s..], if sign then Ones(s) else Zeros(s));
    ValueOnes(s);
    ValueZeros(s);
    ValueBelow(v[..s]);
    Pow2Sum(s, n);
    SignExtension(Value(v[..s]), Value(v[s..]), Pow2(s), Pow2(n));
    DivisionUnique(Signed(v), Pow2(s), Value(v[s..]) as int - (if sign then Pow2(n) else 0), Value(v[..s]));
  }

  lemma SignExtension(low: nat, high: int, a: nat, b: nat)
    ensures low + a * high - a * b == (high - b) * a + low
    ensures b * (a - 1) == a * b - b
  {
  }

  // The support routines are multiplication and division by a power of two.
  lemma ShiftsScale(v: Word, shift: int)
    ensures var p := Pow2(shift % 64);
            Value(ShiftLeft64(v, shift)) == (Value(v) * p) % Pow2(64) && Value(ShiftRight64(v, shift)) == Value(v) / p
  {
    hide Value, Pow2, ShiftLeft64, ShiftRight64, Shl, Shr;
    HalvesShiftLeft(v, shift);
    HalvesShiftRight(v, shift);
    ShlMultiplies(v, shift % 64);
    ShrDivides(v, shift % 64);
  }

  lemma ArithmeticShiftScales(v: Word, shift: int)
    ensures Signed(ArithmeticShiftRight64(v, shift)) == Signed(v) / Pow2(shift % 64)
  {
    hide Value, Pow2, ArithmeticShiftRight64, ArithmeticShr, Signed;
    HalvesShiftArithmetic(v, shift);
    ArithmeticShrDivides(v, shift % 64);
  }

  // ---------------------------------------------------------- leading zeros

  // The highest set bit is the n-th from the top.
  predicate LeadingZeros(v: Bits, n: nat)
  {
    n <= |v| && (n < |v| ==> v[|v| - 1 - n]) && forall i :: |v| - n <= i < |v| ==> !v[i]
  }

  method CountLeadingZeros32(v: Bits) returns (n: nat)
    requires |v| == 32
    ensures LeadingZeros(v, n)
  {
    hide Shl;
    if v == Zeros(32) {
      return 32;
    }
    var w := v;
    assert Shl(v, 0) == v;
    n := 0;
    while !w[31]
      invariant n <= 32 && w == Shl(v, n)
      invariant forall i :: 32 - n <= i < 32 ==> !v[i]
      decreases 32 - n
    {
      assert n < 32 by { NoneSet(v); }
      assert w[31] == v[31 - n];
      assert Shl(Shl(v, n), 1) == Shl(v, n + 1);
      w := Shl(w, 1);
      n := n + 1;
    }
  }

  method CountLeadingZeros64(v: Word) returns (n: nat)
    ensures LeadingZeros(v, n)
  {
    if v[32..] != Zeros(32) {
      n := CountLeadingZeros32(v[32..]);
      NoneSet(v[32..]);
      HighHalf(v, n);
    } else {
      n := CountLeadingZeros32(v[..32]);
      LowHalf(v, n);
      n := 32 + n;
    }
  }

  lemma NoneSet(v: Bits)
    ensures LeadingZeros(v, |v|) ==> v == Zeros(|v|)
  {
  }

  lemma HighHalf(v: Word, n: nat)
    requires LeadingZeros(v[32..], n) && n < 32
    ensures LeadingZeros(v, n)
  {
    forall i | 64 - n <= i < 64 ensures !v[i] {
      assert !v[32..][i - 32];
    }
  }

  lemma LowHalf(v: Word, n: nat)
    requires v[32..] == Zeros(32) && LeadingZeros(v[..32], n)
    ensures LeadingZeros(v, 32 + n)
  {
    forall i | 64 - (32 + n) <= i < 64 ensures !v[i] {
      if i >= 32 {
        assert !v[32..][i - 32];
      } else {
        assert !v[..32][i];
      }
    }
  }

  // ------------------------------------------------------------------ memory

  // len bytes moved inside one memory, whatever the overlap.
  method MoveBytes(mem: array<Byte>, dst: nat, src: nat, len: nat)
    requires dst + len <= mem.Length && src + len <= mem.Length
    modifies mem
    ensures forall k :: 0 <= k < mem.Length ==>
              mem[k] == old(if dst <= k < dst + len then mem[src + k - dst] else mem[k])
  {
    if dst == src || len == 0 {
      return;
    }
    if dst < src {
      var i := 0;
      while i < len
        invariant 0 <= i <= len
        invariant forall k :: 0 <= k < mem.Length ==>
                    mem[k] == if dst <= k < dst + i then old(mem[src + k - dst]) else old(mem[k])
      {
        mem[dst + i] := mem[src + i];
        i := i + 1;
      }
    } else {
      var i := len;
      while i > 0
        invariant 0 <= i <= len
        invariant forall k :: 0 <= k < mem.Length ==>
                    mem[k] == if dst + i <= k < dst + len then old(mem[src + k - dst]) else old(mem[k])
      {
        mem[dst + i - 1] := mem[src + i - 1];
        i := i - 1;
      }
    }
  }

  // The sign of the first difference.
  method CompareBytes(a: array<Byte>, b: array<Byte>, len: nat) returns (r: int)
    requires len <= a.Length && len <= b.Length
    ensures r == 0 <==> a[..len] == b[..len]
    ensures r != 0 ==> exists i :: 0 <= i < len && a[..i] == b[..i] && r == a[i] as int - b[i] as int
  {
    var i := 0;
    while i < len
      invariant 0 <= i <= len && a[..i] == b[..i]
    {
      if a[i] != b[i] {
        assert a[..len][i] != b[..len][i];
        return a[i] as int - b[i] as int;
      }
      i := i + 1;
    }
    return 0;
  }
}
