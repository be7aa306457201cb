// The Ascon permutation (SP 800-232, section 3) and the proof that it is a
// bijection for every round count.
module Permutation {
  import opened BitVectors
  import opened Bytes

  // ------------------------------------------------------------------ p_C

  const ROUND_CONSTANTS: seq<nat> :=
    [0x3C, 0x2D, 0x1E, 0x0F, 0xF0, 0xE1, 0xD2, 0xC3, 0xB4, 0xA5, 0x96, 0x87, 0x78, 0x69, 0x5A, 0x4B]

  function RoundConstant(index: nat): Word
    requires index < 16
  {
    ByteBits(ROUND_CONSTANTS[index]) + Zeros(56)
  }

  // The constants count down in the high half and up in the low half of the
  // lowest byte, the twelve rounds of p12 using the last twelve.
  lemma RoundConstantValue(index: nat)
    requires index < 16
    ensures var k := (index + 12) % 16; Value(RoundConstant(index)) == 16 * (15 - k) + k
  {
    hide ByteBits, Value;
    ByteRoundTrip(ROUND_CONSTANTS[index]);
    ValueConcat(ByteBits(ROUND_CONSTANTS[index]), Zeros(56));
    ValueZeros(56);
  }

  function PC(s: State, index: nat): State
    requires index < 16
  {
    XorAt(s, 128, RoundConstant(index))
  }

  lemma PCInvolution(s: State, index: nat)
    requires index < 16
    ensures PC(PC(s, index), index) == s
  {
  }

  // ------------------------------------------------------------------ p_S

  datatype Column = Column(x0: bool, x1: bool, x2: bool, x3: bool, x4: bool)

  function ColumnAt(s: State, j: nat): Column
    requires j < 64
  {
    Column(s[j], s[64 + j], s[128 + j], s[192 + j], s[256 + j])
  }

  function Sbox(v: nat): (r: nat)
    requires v < 32
    ensures r < 32
  {
    match v
    case 0 => 0x04 case 1 => 0x0B case 2 => 0x1F case 3 => 0x14
    case 4 => 0x1A case 5 => 0x15 case 6 => 0x09 case 7 => 0x02
    case 8 => 0x1B case 9 => 0x05 case 10 => 0x08 case 11 => 0x12
    case 12 => 0x1D case 13 => 0x03 case 14 => 0x06 case 15 => 0x1C
    case 16 => 0x1E case 17 => 0x13 case 18 => 0x07 case 19 => 0x0E
    case 20 => 0x00 case 21 => 0x0D case 22 => 0x11 case 23 => 0x18
    case 24 => 0x10 case 25 => 0x0C case 26 => 0x01 case 27 => 0x19
    case 28 => 0x16 case 29 => 0x0A case 30 => 0x0F case _ => 0x17
  }

  // The table read backwards.
  function SboxInverse(v: nat): (r: nat)
    requires v < 32
    ensures r < 32
  {
    match v
    case 0 => 0x14 case 1 => 0x1A case 2 => 0x07 case 3 => 0x0D
    case 4 => 0x00 case 5 => 0x09 case 6 => 0x0E case 7 => 0x12
    case 8 => 0x0A case 9 => 0x06 case 10 => 0x1D case 11 => 0x01
    case 12 => 0x19 case 13 => 0x15 case 14 => 0x13 case 15 => 0x1E
    case 16 => 0x18 case 17 => 0x16 case 18 => 0x0B case 19 => 0x11
    case 20 => 0x03 case 21 => 0x05 case 22 => 0x1C case 23 => 0x1F
    case 24 => 0x17 case 25 => 0x1B case 26 => 0x04 case 27 => 0x08
    case 28 => 0x0F case 29 => 0x0C case 30 => 0x10 case _ => 0x02
  }

  lemma SboxBijective(v: nat)
    requires v < 32
    ensures SboxInverse(Sbox(v)) == v && Sbox(SboxInverse(v)) == v
  {
  }

  // x0 is bit 4 of the table index and x4 bit 0.
  function ColumnValue(c: Column): (v: nat)
    ensures v < 32
  {
    16 * Bit(c.x0) + 8 * Bit(c.x1) + 4 * Bit(c.x2) + 2 * Bit(c.x3) + Bit(c.x4)
  }

  function ValueColumn(v: nat): (c: Column)
    requires v < 32
    ensures ColumnValue(c) == v
  {
    var v3 := if v >= 16 then v - 16 else v;
    var v2 := if v3 >= 8 then v3 - 8 else v3;
    var v1 := if v2 >= 4 then v2 - 4 else v2;
    var v0 := if v1 >= 2 then v1 - 2 else v1;
    Column(v >= 16, v3 >= 8, v2 >= 4, v1 >= 2, v0 == 1)
  }

  // One 5-bit table lookup.
  function Substitute(c: Column): Column
  {
    ValueColumn(Sbox(ColumnValue(c)))
  }

  function SubstituteInverse(c: Column): Column
  {
    ValueColumn(SboxInverse(ColumnValue(c)))
  }

  lemma SubstituteBijective(c: Column)
    ensures SubstituteInverse(Substitute(c)) == c
    ensures Substitute(SubstituteInverse(c)) == c
  {
    hide Sbox, SboxInverse;
    SboxBijective(ColumnValue(c));
    ColumnsDiffer(SubstituteInverse(Substitute(c)), c);
    ColumnsDiffer(Substitute(SubstituteInverse(c)), c);
  }

  lemma ColumnsDiffer(c: Column, d: Column)
    ensures ColumnValue(c) == ColumnValue(d) ==> c == d
  {
  }

  function Word0(s: State): Word { s[0..64] }
  function Word1(s: State): Word { s[64..128] }
  function Word2(s: State): Word { s[128..192] }
  function Word3(s: State): Word { s[192..256] }
  function Word4(s: State): Word { s[256..320] }

  // The bitsliced form: 64 columns at once with word-wide boolean operations.
  function PS(s: State): State
  {
    var x0, x1, x2, x3, x4 := Word0(s), Word1(s), Word2(s), Word3(s), Word4(s);
    var y0 := Xor(Xor(Xor(Xor(Xor(Xor(And(x4, x1), x3), And(x2, x1)), x2), And(x1, x0)), x1), x0);
    var y1 := Xor(Xor(Xor(Xor(Xor(Xor(Xor(x4, And(x3, x2)), And(x3, x1)), x3), And(x2, x1)), x2), x1), x0);
    var y2 := Xor(Xor(Xor(Xor(And(x4, x3), x4), x2), x1), Ones(64));
    var y3 := Xor(Xor(Xor(Xor(Xor(Xor(And(x4, x0), x4), And(x3, x0)), x3), x2), x1), x0);
    var y4 := Xor(Xor(Xor(Xor(And(x4, x1), x4), x3), And(x1, x0)), x1);
    y0 + y1 + y2 + y3 + y4
  }

  // The same network on one column.
  function NetworkColumn(c: Column): Column
  {
    Column(((((((c.x4 && c.x1) != c.x3) != (c.x2 && c.x1)) != c.x2) != (c.x1 && c.x0)) != c.x1) != c.x0,
           (((((((c.x4 != (c.x3 && c.x2)) != (c.x3 && c.x1)) != c.x3) != (c.x2 && c.x1)) != c.x2) != c.x1) != c.x0),
           ((((c.x4 && c.x3) != c.x4) != c.x2) != c.x1) != true,
           ((((((c.x4 && c.x0) != c.x4) != (c.x3 && c.x0)) != c.x3) != c.x2) != c.x1) != c.x0,
           ((((c.x4 && c.x1) != c.x4) != c.x3) != (c.x1 && c.x0)) != c.x1)
  }

  lemma NetworkIsTable(c: Column)
    ensures NetworkColumn(c) == Substitute(c)
  {
  }

  // The bitsliced network is the table applied to each of the 64 columns.
  lemma BitslicedIsTable(s: State, j: nat)
    requires j < 64
    ensures ColumnAt(PS(s), j) == Substitute(ColumnAt(s, j))
  {
    hide Substitute;
    NetworkIsTable(ColumnAt(s, j));
  }

  // The state whose column j is f(j).
  function FromColumns(f: nat -> Column): State
  {
    seq(320, i requires 0 <= i < 320 =>
      if i < 64 then f(i).x0
      else if i < 128 then f(i - 64).x1
      else if i < 192 then f(i - 128).x2
      else if i < 256 then f(i - 192).x3
      else f(i - 256).x4)
  }

  lemma ColumnOfColumns(f: nat -> Column, j: nat)
    requires j < 64
    ensures ColumnAt(FromColumns(f), j) == f(j)
  {
  }

  function PSInverse(s: State): State
  {
    FromColumns((j: nat) => if j < 64 then SubstituteInverse(ColumnAt(s, j)) else ColumnAt(s, 0))
  }

  lemma StatesEqualByColumns(s: State, t: State)
    requires forall j :: 0 <= j < 64 ==> ColumnAt(s, j) == ColumnAt(t, j)
    ensures s == t
  {
    forall i | 0 <= i < 320 ensures s[i] == t[i] {
      var j := if i < 64 then i
               else if i < 128 then i - 64
               else if i < 192 then i - 128
               else if i < 256 then i - 192
               else i - 256;
      assert ColumnAt(s, j) == ColumnAt(t, j);
    }
  }

  lemma UnsubstituteColumn(s: State, j: nat)
    requires j < 64
    ensures ColumnAt(PSInverse(s), j) == SubstituteInverse(ColumnAt(s, j))
  {
    hide SubstituteInverse, FromColumns;
    ColumnOfColumns((i: nat) => if i < 64 then SubstituteInverse(ColumnAt(s, i)) else ColumnAt(s, 0), j);
  }

  lemma PSBijective(s: State)
    ensures PSInverse(PS(s)) == s && PS(PSInverse(s)) == s
  {
    hide Substitute, SubstituteInverse, PS, PSInverse;
    forall j | 0 <= j < 64
      ensures ColumnAt(PSInverse(PS(s)), j) == ColumnAt(s, j) == ColumnAt(PS(PSInverse(s)), j)
    {
      UnsubstituteColumn(PS(s), j);
      BitslicedIsTable(s, j);
      UnsubstituteColumn(s, j);
      BitslicedIsTable(PSInverse(s), j);
      SubstituteBijective(ColumnAt(s, j));
    }
    StatesEqualByColumns(PSInverse(PS(s)), s);
    StatesEqualByColumns(PS(PSInverse(s)), s);
  }

  // ------------------------------------------------------------------ p_L

  // Truncation of a sum of two bit positions to six bits.
  function Wrap(i: nat): (r: nat)
    requires i < 128
    ensures r < 64
  {
    if i < 64 then i else i - 64
  }

  // (x >> n) | (x << (64 - n))
  function Rotr(x: Word, n: nat): Word
    requires n < 64
  {
    if n == 0 then x else Or(Shr(x, n), Shl(x, 64 - n))
  }

  lemma RotrBit(x: Word, n: nat, j: nat)
    requires n < 64 && j < 64
    ensures Rotr(x, n)[j] == x[Wrap(j + n)]
  {
  }

  function Sigma(x: Word, a: nat, b: nat): (r: Word)
    requires a < 64 && b < 64
  {
    Xor(Xor(x, Rotr(x, a)), Rotr(x, b))
  }

  function PL(s: State): State
  {
    Sigma(Word0(s), 19, 28) + Sigma(Word1(s), 61, 39) + Sigma(Word2(s), 1, 6)
    + Sigma(Word3(s), 10, 17) + Sigma(Word4(s), 7, 41)
  }

  lemma SigmaBit(x: Word, a: nat, b: nat, j: nat)
    requires a < 64 && b < 64 && j < 64
    ensures Sigma(x, a, b)[j] == ((x[j] != x[Wrap(j + a)]) != x[Wrap(j + b)])
  {
    RotrBit(x, a, j);
    RotrBit(x, b, j);
  }

  // z is the sigma of x, bit by bit.
  ghost predicate IsSigma(x: Word, a: nat, b: nat, z: Word)
    requires a < 64 && b < 64
  {
    forall j: nat {:trigger z[j]} :: j < 64 ==> z[j] == ((x[j] != x[Wrap(j + a)]) != x[Wrap(j + b)])
  }

  lemma SigmaBits(x: Word, a: nat, b: nat)
    requires a < 64 && b < 64
    ensures IsSigma(x, a, b, Sigma(x, a, b))
  {
    forall j: nat | j < 64
      ensures Sigma(x, a, b)[j] == ((x[j] != x[Wrap(j + a)]) != x[Wrap(j + b)])
    {
      SigmaBit(x, a, b, j);
    }
  }

  lemma WrapSums(j: nat, a: nat, b: nat)
    requires j < 64 && a < 64 && b < 64
    ensures Wrap(Wrap(j + a) + a) == Wrap(j + Wrap(2 * a))
    ensures Wrap(Wrap(j + a) + b) == Wrap(Wrap(j + b) + a)
  {
  }

  lemma CrossTermsCancel(x: Word, a: nat, b: nat, y: Word, z: Word, w: Word)
    requires a < 64 && b < 64
    requires IsSigma(x, a, b, y) && IsSigma(y, a, b, z) && IsSigma(x, Wrap(2 * a), Wrap(2 * b), w)
    ensures z == w
  {
    hide Wrap;
    forall j: nat | j < 64
      ensures z[j] == w[j]
    {
      WrapSums(j, a, b);
      WrapSums(j, b, a);
      var ja, jb := Wrap(j + a), Wrap(j + b);
      assert z[j] == ((y[j] != y[ja]) != y[jb]);
      assert y[j] == ((x[j] != x[ja]) != x[jb]);
    }
  }

  // Squaring a sigma doubles both rotation amounts.
  lemma SigmaSquared(x: Word, a: nat, b: nat)
    requires a < 64 && b < 64
    ensures Sigma(Sigma(x, a, b), a, b) == Sigma(x, Wrap(2 * a), Wrap(2 * b))
  {
    SigmaBits(x, a, b);
    SigmaBits(Sigma(x, a, b), a, b);
    SigmaBits(x, Wrap(2 * a), Wrap(2 * b));
    CrossTermsCancel(x, a, b, Sigma(x, a, b), Sigma(Sigma(x, a, b), a, b), Sigma(x, Wrap(2 * a), Wrap(2 * b)));
  }

  function SigmaMap(a: nat, b: nat): Word -> Word
    requires a < 64 && b < 64
  {
    (x: Word) => Sigma(x, a, b)
  }

  function Iterate<T>(f: T -> T, x: T, k: nat): T
    decreases k, x
  {
    if k == 0 then x else Iterate(f, f(x), k - 1)
  }

  lemma {:induction false} IterateLast<T>(f: T -> T, x: T, k: nat)
    ensures Iterate(f, x, k + 1) == f(Iterate(f, x, k))
    decreases k
  {
    if k > 0 {
      IterateLast(f, f(x), k - 1);
    }
  }

  lemma {:induction false} IterateSquared<T(!new)>(f: T -> T, g: T -> T, x: T, k: nat)
    requires forall y :: f(f(y)) == g(y)
    ensures Iterate(f, x, 2 * k) == Iterate(g, x, k)
    decreases k
  {
    if k > 0 {
      assert Iterate(f, x, 2 * k) == Iterate(f, f(x), 2 * k - 1) == Iterate(f, f(f(x)), 2 * k - 2);
      IterateSquared(f, g, g(x), k - 1);
    }
  }

  lemma SigmaMapSquared(a: nat, b: nat, x: Word, k: nat)
    requires a < 64 && b < 64
    ensures Iterate(SigmaMap(a, b), x, 2 * k) == Iterate(SigmaMap(Wrap(2 * a), Wrap(2 * b)), x, k)
  {
    var f, g := SigmaMap(a, b), SigmaMap(Wrap(2 * a), Wrap(2 * b));
    forall y: Word ensures f(f(y)) == g(y) {
      SigmaSquared(y, a, b);
    }
    IterateSquared(f, g, x, k);
  }

  // Doubling modulo 64 adds a factor of two.
  lemma Doubling(a: nat, n: nat, c: nat, half: nat) returns (d: nat)
    requires a == n * c && n * half == 32 && c < 2 * half
    ensures a < 64 && Wrap(2 * a) == 2 * n * d && d < half
  {
    d := if c < half then c else c - half;
    Below(n, c, 2 * half);
    if c < half {
      Below(n, c, half);
    } else {
      Difference(n, c, half);
    }
  }

  lemma Below(n: nat, c: nat, d: nat)
    requires c < d && 0 < n * d
    ensures n * c < n * d
  {
    assert n * d == n * c + n * (d - c);
  }

  lemma Difference(n: nat, c: nat, d: nat)
    requires d <= c
    ensures n * (c - d) == n * c - n * d && n * d <= n * c
  {
  }

  lemma SixDoublings(a: nat, a1: nat, a2: nat, a3: nat, a4: nat, a5: nat, a6: nat)
    requires a < 64 && a1 == Wrap(2 * a) && a2 == Wrap(2 * a1) && a3 == Wrap(2 * a2)
    requires a4 == Wrap(2 * a3) && a5 == Wrap(2 * a4) && a6 == Wrap(2 * a5)
    ensures a6 == 0
  {
    hide Wrap;
    var c1 := Doubling(a, 1, a, 32);
    var c2 := Doubling(a1, 2, c1, 16);
    var c3 := Doubling(a2, 4, c2, 8);
    var c4 := Doubling(a3, 8, c3, 4);
    var c5 := Doubling(a4, 16, c4, 2);
    var c6 := Doubling(a5, 32, c5, 1);
  }

  // Six squarings turn every rotation into a multiple of 64.
  lemma SigmaOrder64(a: nat, b: nat, x: Word)
    requires a < 64 && b < 64
    ensures Iterate(SigmaMap(a, b), x, 64) == x
  {
    var a1, b1 := Wrap(2 * a), Wrap(2 * b);
    var a2, b2 := Wrap(2 * a1), Wrap(2 * b1);
    var a3, b3 := Wrap(2 * a2), Wrap(2 * b2);
    var a4, b4 := Wrap(2 * a3), Wrap(2 * b3);
    var a5, b5 := Wrap(2 * a4), Wrap(2 * b4);
    SigmaMapSquared(a, b, x, 32);
    SigmaMapSquared(a1, b1, x, 16);
    SigmaMapSquared(a2, b2, x, 8);
    SigmaMapSquared(a3, b3, x, 4);
    SigmaMapSquared(a4, b4, x, 2);
    SigmaMapSquared(a5, b5, x, 1);
    SixDoublings(a, a1, a2, a3, a4, a5, Wrap(2 * a5));
    SixDoublings(b, b1, b2, b3, b4, b5, Wrap(2 * b5));
    SigmaZero(x);
    assert Iterate(SigmaMap(0, 0), x, 1) == Iterate(SigmaMap(0, 0), SigmaMap(0, 0)(x), 0);
  }

  lemma SigmaZero(x: Word)
    ensures Sigma(x, 0, 0) == x
  {
  }

  function SigmaInverse(x: Word, a: nat, b: nat): Word
    requires a < 64 && b < 64
  {
    Iterate(SigmaMap(a, b), x, 63)
  }

  lemma SigmaBijective(x: Word, a: nat, b: nat)
    requires a < 64 && b < 64
    ensures SigmaInverse(Sigma(x, a, b), a, b) == x
    ensures Sigma(SigmaInverse(x, a, b), a, b) == x
  {
    SigmaOrder64(a, b, x);
    assert Iterate(SigmaMap(a, b), x, 64) == Iterate(SigmaMap(a, b), SigmaMap(a, b)(x), 63);
    IterateLast(SigmaMap(a, b), x, 63);
  }

  function PLInverse(s: State): State
  {
    SigmaInverse(Word0(s), 19, 28) + SigmaInverse(Word1(s), 61, 39) + SigmaInverse(Word2(s), 1, 6)
    + SigmaInverse(Word3(s), 10, 17) + SigmaInverse(Word4(s), 7, 41)
  }

  lemma WordsOfSum(a: Word, b: Word, c: Word, d: Word, e: Word)
    ensures var s := a + b + c + d + e;
            Word0(s) == a && Word1(s) == b && Word2(s) == c && Word3(s) == d && Word4(s) == e
  {
  }

  lemma SumOfWords(s: State)
    ensures s == Word0(s) + Word1(s) + Word2(s) + Word3(s) + Word4(s)
  {
  }

  lemma PLBijective(s: State)
    ensures PLInverse(PL(s)) == s && PL(PLInverse(s)) == s
  {
    SigmaBijective(Word0(s), 19, 28);
    SigmaBijective(Word1(s), 61, 39);
    SigmaBijective(Word2(s), 1, 6);
    SigmaBijective(Word3(s), 10, 17);
    SigmaBijective(Word4(s), 7, 41);
    WordsOfSum(Sigma(Word0(s), 19, 28), Sigma(Word1(s), 61, 39), Sigma(Word2(s), 1, 6),
               Sigma(Word3(s), 10, 17), Sigma(Word4(s), 7, 41));
    WordsOfSum(SigmaInverse(Word0(s), 19, 28), SigmaInverse(Word1(s), 61, 39), SigmaInverse(Word2(s), 1, 6),
               SigmaInverse(Word3(s), 10, 17), SigmaInverse(Word4(s), 7, 41));
    SumOfWords(s);
  }

  // ------------------------------------------------------------ the rounds

  function Round(s: State, index: nat): State
    requires index < 16
  {
    PL(PS(PC(s, index)))
  }

  // (Naming s in decreases keeps the verifier from unrolling literal counts.)
  // The rounds whose constants have the indices from <= index < 16.
  function RoundsFrom(s: State, from: nat): State
    requires from <= 16
    decreases 16 - from, s
  {
    if from == 16 then s else RoundsFrom(Round(s, from), from + 1)
  }

  // The same rounds counted forwards: the first k of them.
  function FirstRounds(s: State, from: nat, k: nat): State
    requires from + k <= 16
    decreases k, s
  {
    if k == 0 then s else Round(FirstRounds(s, from, k - 1), from + k - 1)
  }

  lemma {:induction false} FirstThenRest(s: State, from: nat, k: nat)
    requires from + k <= 16
    ensures RoundsFrom(FirstRounds(s, from, k), from + k) == RoundsFrom(s, from)
    decreases k
  {
    hide Round;
    if k > 0 {
      FirstThenRest(s, from, k - 1);
    }
  }

  // Ascon-p[n]: round i of n uses constant 16 - n + i.
  function Permute(s: State, n: nat): State
    requires n <= 16
  {
    RoundsFrom(s, 16 - n)
  }

  function RoundInverse(s: State, index: nat): State
    requires index < 16
  {
    PC(PSInverse(PLInverse(s)), index)
  }

  function UnroundsFrom(s: State, from: nat): State
    requires from <= 16
    decreases 16 - from, s
  {
    if from == 16 then s else RoundInverse(UnroundsFrom(s, from + 1), from)
  }

  function PermuteInverse(s: State, n: nat): State
    requires n <= 16
  {
    UnroundsFrom(s, 16 - n)
  }

  lemma RoundBijective(s: State, index: nat)
    requires index < 16
    ensures RoundInverse(Round(s, index), index) == s
    ensures Round(RoundInverse(s, index), index) == s
  {
    PLBijective(PS(PC(s, index)));
    PSBijective(PC(s, index));
    PLBijective(s);
    PSBijective(PLInverse(s));
    PCInvolution(s, index);
    PCInvolution(PSInverse(PLInverse(s)), index);
  }

  lemma {:induction false} RoundsBijective(s: State, from: nat)
    requires from <= 16
    ensures UnroundsFrom(RoundsFrom(s, from), from) == s
    ensures RoundsFrom(UnroundsFrom(s, from), from) == s
    decreases 16 - from
  {
    if from < 16 {
      RoundBijective(s, from);
      RoundsBijective(Round(s, from), from + 1);
      RoundsBijective(s, from + 1);
      RoundBijective(UnroundsFrom(s, from + 1), from);
    }
  }

  // For every round count the permutation has a two-sided inverse.
  lemma PermutationBijective(s: State, n: nat)
    requires n <= 16
    ensures PermuteInverse(Permute(s, n), n) == s
    ensures Permute(PermuteInverse(s, n), n) == s
  {
    hide RoundsFrom, UnroundsFrom;
    RoundsBijective(s, 16 - n);
  }

  lemma PermutationInjective(s: State, t: State, n: nat)
    requires n <= 16 && Permute(s, n) == Permute(t, n)
    ensures s == t
  {
    hide Permute;
    PermutationBijective(s, n);
    PermutationBijective(t, n);
  }

  lemma PermutationOnto(t: State, n: nat)
    requires n <= 16
    ensures exists s: State :: Permute(s, n) == t
  {
    hide Permute;
    PermutationBijective(t, n);
  }
}
