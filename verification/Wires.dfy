// Part selects, masks and padding as the generated datapaths wire them.
module Wires {
  import opened BitVectors
  import opened Sponge

  // buf[at +: w]; bits beyond the vector read as zero.
  function Select(buf: Bits, at: nat, w: nat): (r: Bits)
    ensures |r| == w
  {
    seq(w, k requires 0 <= k < w => at + k < |buf| && buf[at + k])
  }

  // buf[at +: |v|] <= v; bits beyond the vector are not written.
  function Write(buf: Bits, at: nat, v: Bits): (r: Bits)
    ensures |r| == |buf|
    ensures forall k {:trigger r[k]} :: 0 <= k < |buf| ==> r[k] == if at <= k < at + |v| then v[k - at] else buf[k]
  {
    seq(|buf|, k requires 0 <= k < |buf| => if at <= k < at + |v| then v[k - at] else buf[k])
  }

  // The block of w bits at byte off of a buffer with `slack` zero bits appended.
  function BlockAt(data: Bits, slack: nat, off: nat, w: nat): (r: Bits)
    ensures |r| == w
  {
    Select(data + Zeros(slack), 8 * off, w)
  }

  function PadBit(w: nat, rem: nat): (r: Bits)
    requires w > 0
    ensures |r| == w
  {
    Shl(One(w), 8 * rem)
  }

  function Mask(w: nat, rem: nat): (r: Bits)
    requires w > 0
    ensures |r| == w
  {
    Decrement(PadBit(w, rem))
  }

  function Padded(block: Bits, rem: nat): (r: Bits)
    requires |block| > 0
    ensures |r| == |block|
  {
    Or(And(block, Mask(|block|, rem)), PadBit(|block|, rem))
  }

  lemma PadBitAt(w: nat, rem: nat)
    requires 8 * rem < w
    ensures PadBit(w, rem) == Zeros(8 * rem) + [true] + Zeros(w - 8 * rem - 1)
    ensures Mask(w, rem) == Ones(8 * rem) + Zeros(w - 8 * rem)
  {
    OneHot(w, 8 * rem);
  }

  lemma PaddedIsPad(block: Bits, rem: nat)
    requires 8 * rem < |block|
    ensures Padded(block, rem) == Pad(block[..8 * rem], |block|)
  {
    hide PadBit, Mask;
    PadBitAt(|block|, rem);
  }

  lemma AbsorbedByXor(s: State, block: Bits)
    requires |block| <= 320
    ensures Xor(s, block + Zeros(320 - |block|)) == XorAt(s, 0, block)
  {
  }

  lemma WrittenPrefix(buf: Bits, at: nat, v: Bits, n: nat)
    requires n <= |v| && at + n <= |buf|
    ensures Write(buf, at, v)[..at + n] == buf[..at] + v[..n]
  {
  }

  lemma FullBlock(data: Bits, slack: nat, off: nat, w: nat)
    requires 8 * off + w <= |data|
    ensures BlockAt(data, slack, off, w) == data[8 * off..8 * off + w]
  {
  }

  lemma PartialBlock(data: Bits, slack: nat, off: nat, len: nat, w: nat)
    requires off <= len && 8 * len <= |data| && 8 * (len - off) <= w
    ensures BlockAt(data, slack, off, w)[..8 * (len - off)] == data[8 * off..8 * len]
  {
  }

  lemma SliceOfSlice(data: Bits, i: nat, j: nat, w: nat)
    requires i + w <= j <= |data|
    ensures data[i..j][..w] == data[i..i + w] && data[i..j][w..] == data[i + w..j]
  {
  }
}
