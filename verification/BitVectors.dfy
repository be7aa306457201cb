// Bit strings in the order of SP 800-232: element 0 is the first bit of the
// string, the least-significant bit of the first byte, bit 0 of a vector.
// A Verilog concatenation {b, a} is therefore the sequence a + b.
module BitVectors {

  type Bits = seq<bool>

  // The five 64-bit words of the sponge state, S[0..64] being x0.
  type State = s: Bits | |s| == 320 witness seq(320, _ => false)

  type Word = w: Bits | |w| == 64 witness seq(64, _ => false)

  type Word32 = w: Bits | |w| == 32 witness seq(32, _ => false)

  function Pow2(n: nat): (r: nat)
    ensures r > 0
  {
    if n == 0 then 1 else 2 * Pow2(n - 1)
  }

  lemma SmallPowers()
    ensures Pow2(3) == 8 && Pow2(4) == 16 && Pow2(8) == 256
  {
    assert Pow2(4) == 16;
  }

  lemma {:induction false} Pow2Sum(a: nat, b: nat)
    ensures Pow2(a + b) == Pow2(a) * Pow2(b)
    decreases a
  {
    if a > 0 {
      Pow2Sum(a - 1, b);
      assert Pow2(a) * Pow2(b) == 2 * (Pow2(a - 1) * Pow2(b));
    }
  }

  function Bit(b: bool): nat { if b then 1 else 0 }

  // The number that a bit string stands for, and the w low bits of a number.
  function Value(a: Bits): nat
  {
    if |a| == 0 then 0 else Bit(a[0]) + 2 * Value(a[1..])
  }

  function FromInt(v: nat, w: nat): (r: Bits)
    ensures |r| == w
  {
    if w == 0 then [] else [v % 2 == 1] + FromInt(v / 2, w - 1)
  }

  lemma {:induction false} FromIntValue(a: Bits)
    ensures FromInt(Value(a), |a|) == a
  {
    if |a| > 0 {
      FromIntValue(a[1..]);
      assert Value(a) % 2 == Bit(a[0]) && Value(a) / 2 == Value(a[1..]);
    }
  }

  lemma {:induction false} ValueFromInt(v: nat, w: nat)
    ensures v < Pow2(w) ==> Value(FromInt(v, w)) == v
    decreases w
  {
    if w > 0 && v < Pow2(w) {
      ValueFromInt(v / 2, w - 1);
      assert FromInt(v, w)[1..] == FromInt(v / 2, w - 1);
    }
  }

  lemma {:induction false} ValueBelow(a: Bits)
    ensures Value(a) < Pow2(|a|)
  {
    if |a| > 0 {
      ValueBelow(a[1..]);
    }
  }

  lemma {:induction false} ValueConcat(a: Bits, b: Bits)
    ensures Value(a + b) == Value(a) + Pow2(|a|) * Value(b)
  {
    if |a| == 0 {
      assert a + b == b;
    } else {
      ValueConcat(a[1..], b);
      assert (a + b)[1..] == a[1..] + b;
      assert Pow2(|a|) * Value(b) == 2 * (Pow2(|a| - 1) * Value(b));
    }
  }

  lemma {:induction false} ValueZeros(n: nat)
    ensures Value(Zeros(n)) == 0
    decreases n
  {
    if n > 0 {
      ValueZeros(n - 1);
      assert Zeros(n)[1..] == Zeros(n - 1);
    }
  }

  function Zeros(n: nat): (r: Bits)
    ensures |r| == n && forall i :: 0 <= i < n ==> !r[i]
  {
    seq(n, _ => false)
  }

  function Ones(n: nat): (r: Bits)
    ensures |r| == n && forall i :: 0 <= i < n ==> r[i]
  {
    seq(n, _ => true)
  }

  function Xor(a: Bits, b: Bits): (r: Bits)
    requires |a| == |b|
    ensures |r| == |a| && forall i {:trigger r[i]} :: 0 <= i < |a| ==> r[i] == (a[i] != b[i])
  {
    seq(|a|, i requires 0 <= i < |a| => a[i] != b[i])
  }

  function And(a: Bits, b: Bits): (r: Bits)
    requires |a| == |b|
    ensures |r| == |a| && forall i {:trigger r[i]} :: 0 <= i < |a| ==> r[i] == (a[i] && b[i])
  {
    seq(|a|, i requires 0 <= i < |a| => a[i] && b[i])
  }

  function Or(a: Bits, b: Bits): (r: Bits)
    requires |a| == |b|
    ensures |r| == |a| && forall i {:trigger r[i]} :: 0 <= i < |a| ==> r[i] == (a[i] || b[i])
  {
    seq(|a|, i requires 0 <= i < |a| => a[i] || b[i])
  }

  function Not(a: Bits): (r: Bits)
    ensures |r| == |a| && forall i {:trigger r[i]} :: 0 <= i < |a| ==> r[i] == !a[i]
  {
    seq(|a|, i requires 0 <= i < |a| => !a[i])
  }

  // Fixed-width shift towards the most-significant end (<<).
  function Shl(a: Bits, n: nat): (r: Bits)
    ensures |r| == |a| && forall i {:trigger r[i]} :: 0 <= i < |a| ==> r[i] == (i >= n && a[i - n])
  {
    seq(|a|, i requires 0 <= i < |a| => i >= n && a[i - n])
  }

  // Fixed-width shift towards the least-significant end (>>).
  function Shr(a: Bits, n: nat): (r: Bits)
    ensures |r| == |a| && forall i {:trigger r[i]} :: 0 <= i < |a| ==> r[i] == (i + n < |a| && a[i + n])
  {
    seq(|a|, i requires 0 <= i < |a| => i + n < |a| && a[i + n])
  }

  // The vector w'h1.
  function One(w: nat): (r: Bits)
    requires w > 0
    ensures |r| == w
  {
    [true] + Zeros(w - 1)
  }

  // Subtraction of w'h1 by borrow propagation, wrapping at zero.
  function Decrement(a: Bits): (r: Bits)
    ensures |r| == |a|
  {
    if |a| == 0 then [] else if a[0] then [false] + a[1..] else [true] + Decrement(a[1..])
  }

  // Overwrites the part select a[off +: |b|].
  function Splice(a: Bits, off: nat, b: Bits): (r: Bits)
    requires off + |b| <= |a|
    ensures |r| == |a|
    ensures forall i {:trigger r[i]} :: 0 <= i < |a| ==> r[i] == if off <= i < off + |b| then b[i - off] else a[i]
  {
    seq(|a|, i requires 0 <= i < |a| => if off <= i < off + |b| then b[i - off] else a[i])
  }

  // Xors b into the part select a[off +: |b|].
  function XorAt(a: Bits, off: nat, b: Bits): (r: Bits)
    requires off + |b| <= |a|
    ensures |r| == |a|
    ensures forall i {:trigger r[i]} :: 0 <= i < |a| ==>
              r[i] == if off <= i < off + |b| then a[i] != b[i - off] else a[i]
  {
    seq(|a|, i requires 0 <= i < |a| => if off <= i < off + |b| then a[i] != b[i - off] else a[i])
  }

  // What a datapath writes as a ^ {0, b, 0} is an xor into one part select.
  lemma XorPlaced(a: Bits, off: nat, b: Bits)
    requires off + |b| <= |a|
    ensures Xor(a, Zeros(off) + b + Zeros(|a| - off - |b|)) == XorAt(a, off, b)
  {
  }

  // A shifted one has a single set bit, and one less is a mask of the bits below it.
  lemma {:induction false} OneHot(w: nat, n: nat)
    requires n < w
    ensures Shl(One(w), n) == Zeros(n) + [true] + Zeros(w - n - 1)
    ensures Decrement(Shl(One(w), n)) == Ones(n) + Zeros(w - n)
  {
    assert One(w)[..w - n] == [true] + Zeros(w - n - 1);
    var v := Zeros(n) + [true] + Zeros(w - n - 1);
    if n == 0 {
      assert v[1..] == Zeros(w - 1);
      assert Decrement(v) == [false] + Zeros(w - 1) == Ones(0) + Zeros(w);
    } else {
      OneHot(w - 1, n - 1);
      assert One(w - 1)[..w - n] == [true] + Zeros(w - n - 1);
      assert v[1..] == Zeros(n - 1) + [true] + Zeros(w - n - 1);
      assert Decrement(v) == [true] + (Ones(n - 1) + Zeros(w - n)) == Ones(n) + Zeros(w - n);
    }
  }
}
