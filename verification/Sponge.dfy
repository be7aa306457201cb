// Padding, absorbing and squeezing (SP 800-232, sections 2.1 and 5), shared by
// the authenticated encryption and the hash modes.
module Sponge {
  import opened BitVectors
  import opened Permutation

  // pad(X, r) of a final partial block: X || 1 || 0^j.
  function Pad(block: Bits, rate: nat): (r: Bits)
    requires |block| < rate
    ensures |r| == rate
    ensures forall i {:trigger r[i]} :: 0 <= i < rate ==> r[i] == if i < |block| then block[i] else i == |block|
  {
    block + [true] + Zeros(rate - |block| - 1)
  }

  // Full blocks are followed by `inner` rounds, the padded block by `last` rounds.
  function Absorb(s: State, data: Bits, rate: nat, inner: nat, last: nat): State
    requires 0 < rate <= 320 && inner <= 16 && last <= 16
    decreases |data|
  {
    if |data| >= rate then
      Absorb(Permute(XorAt(s, 0, data[..rate]), inner), data[rate..], rate, inner, last)
    else
      Permute(XorAt(s, 0, Pad(data, rate)), last)
  }

  function Squeeze(s: State, n: nat, inner: nat): (r: Bits)
    requires inner <= 16
    ensures |r| == n
    decreases n
  {
    if n <= 64 then s[..n] else s[..64] + Squeeze(Permute(s, inner), n - 64, inner)
  }

  function SpongeInit(iv: Word): State
  {
    Permute(iv + Zeros(256), 12)
  }

  // Absorbing and squeezing use `inner` rounds, initialization and finalization 12.
  function HashXof(iv: Word, message: Bits, n: nat, inner: nat): (r: Bits)
    requires inner <= 16
    ensures |r| == n
  {
    Squeeze(Absorb(SpongeInit(iv), message, 64, inner, 12), n, inner)
  }

  // The 64-bit word that holds the bit length of an n-byte string.
  function LengthWord(n: nat): Word
  {
    FromInt(8 * n, 64)
  }

  // The customized form absorbs the length of the customization string, then
  // the string, then the message.
  function Cxof(iv: Word, customizationLength: Word, customization: Bits, message: Bits, n: nat): (r: Bits)
    ensures |r| == n
  {
    var s := Permute(XorAt(SpongeInit(iv), 0, customizationLength), 12);
    Squeeze(Absorb(Absorb(s, customization, 64, 12, 12), message, 64, 12, 12), n, 12)
  }

  // Asking for more output never changes the output already produced.
  lemma {:induction false} SqueezePrefix(s: State, m: nat, n: nat, inner: nat)
    requires m <= n && inner <= 16
    ensures Squeeze(s, n, inner)[..m] == Squeeze(s, m, inner)
    decreases n
  {
    if n > 64 {
      var t := Permute(s, inner);
      if m > 64 {
        SqueezePrefix(t, m - 64, n - 64, inner);
        assert Squeeze(s, n, inner)[..m] == s[..64] + Squeeze(t, n - 64, inner)[..m - 64];
      }
    }
  }

  lemma XofPrefix(iv: Word, message: Bits, m: nat, n: nat, inner: nat)
    requires m <= n && inner <= 16
    ensures HashXof(iv, message, n, inner)[..m] == HashXof(iv, message, m, inner)
  {
    SqueezePrefix(Absorb(SpongeInit(iv), message, 64, inner, 12), m, n, inner);
  }
}
