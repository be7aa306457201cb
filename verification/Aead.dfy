// Authenticated encryption with associated data (SP 800-232, section 4, and the
// parameter sets of the submission), on bit strings of any length.
module Aead {
  import opened BitVectors
  import opened Bytes
  import opened Permutation
  import opened Sponge

  // rate and keyBits in bits; rounds is the round count of the data phases.
  datatype Config = Config(rate: nat, rounds: nat, keyBits: nat, iv: Bits) {
    predicate Valid()
    {
      && (rate == 64 || rate == 128)
      && (rounds == 6 || rounds == 8)
      && (keyBits == 128 || keyBits == 160)
      && |iv| + keyBits == 192
    }
  }

  const NIST_AEAD128 := Config(128, 8, 128, BytesBits([0x01, 0x00, 0x8C, 0x80, 0x00, 0x10, 0x00, 0x00]))
  const LEGACY_ASCON128 := Config(64, 6, 128, BytesBits([0x80, 0x40, 0x0C, 0x06, 0x00, 0x00, 0x00, 0x00]))
  const LEGACY_ASCON128A := Config(128, 8, 128, BytesBits([0x80, 0x80, 0x0C, 0x08, 0x00, 0x00, 0x00, 0x00]))
  const LEGACY_ASCON80PQ := Config(64, 6, 160, BytesBits([0xA0, 0x40, 0x0C, 0x06]))

  lemma ConfigsValid()
    ensures NIST_AEAD128.Valid() && LEGACY_ASCON128.Valid() && LEGACY_ASCON128A.Valid() && LEGACY_ASCON80PQ.Valid()
  {
  }

  // The key is added to the last keyBits of the state.
  function Initialize(cfg: Config, key: Bits, nonce: Bits): State
    requires cfg.Valid() && |key| == cfg.keyBits && |nonce| == 128
  {
    XorAt(Permute(cfg.iv + key + nonce, 12), 320 - cfg.keyBits, key)
  }

  function DomainSeparate(s: State): State
  {
    XorAt(s, 319, [true])
  }

  function AbsorbAd(cfg: Config, s: State, ad: Bits): State
    requires cfg.Valid()
  {
    Absorb(s, ad, cfg.rate, cfg.rounds, cfg.rounds)
  }

  function ProcessAd(cfg: Config, s: State, ad: Bits): State
    requires cfg.Valid()
  {
    DomainSeparate(if ad == [] then s else AbsorbAd(cfg, s, ad))
  }

  // The state after a data phase and the text it produced.
  datatype Crypt = Crypt(state: State, text: Bits)

  function EncryptText(cfg: Config, s: State, plain: Bits): (r: Crypt)
    requires cfg.Valid()
    ensures |r.text| == |plain|
    decreases |plain|
  {
    if |plain| >= cfg.rate then
      var t := XorAt(s, 0, plain[..cfg.rate]);
      var rest := EncryptText(cfg, Permute(t, cfg.rounds), plain[cfg.rate..]);
      Crypt(rest.state, t[..cfg.rate] + rest.text)
    else
      var t := XorAt(s, 0, Pad(plain, cfg.rate));
      Crypt(t, t[..|plain|])
  }

  function DecryptText(cfg: Config, s: State, cipher: Bits): (r: Crypt)
    requires cfg.Valid()
    ensures |r.text| == |cipher|
    decreases |cipher|
  {
    if |cipher| >= cfg.rate then
      var block := cipher[..cfg.rate];
      var rest := DecryptText(cfg, Permute(Splice(s, 0, block), cfg.rounds), cipher[cfg.rate..]);
      Crypt(rest.state, Xor(s[..cfg.rate], block) + rest.text)
    else
      Crypt(XorAt(Splice(s, 0, cipher), |cipher|, [true]), Xor(s[..|cipher|], cipher))
  }

  function CryptText(cfg: Config, decrypt: bool, s: State, text: Bits): (r: Crypt)
    requires cfg.Valid()
    ensures |r.text| == |text|
  {
    if decrypt then DecryptText(cfg, s, text) else EncryptText(cfg, s, text)
  }

  // The key is added just before the last word, and its last 128 bits to the tag.
  function Finalize(cfg: Config, s: State, key: Bits): (tag: Bits)
    requires cfg.Valid() && |key| == cfg.keyBits
    ensures |tag| == 128
  {
    Xor(Permute(XorAt(s, 256 - cfg.keyBits, key), 12)[192..], key[cfg.keyBits - 128..])
  }

  // The output text and the computed tag of either direction.
  datatype Sealed = Sealed(text: Bits, tag: Bits)

  function Crypto(cfg: Config, decrypt: bool, key: Bits, nonce: Bits, ad: Bits, text: Bits): (r: Sealed)
    requires cfg.Valid() && |key| == cfg.keyBits && |nonce| == 128
    ensures |r.text| == |text| && |r.tag| == 128
  {
    var c := CryptText(cfg, decrypt, ProcessAd(cfg, Initialize(cfg, key, nonce), ad), text);
    Sealed(c.text, Finalize(cfg, c.state, key))
  }

  function Encrypt(cfg: Config, key: Bits, nonce: Bits, ad: Bits, plain: Bits): (r: Sealed)
    requires cfg.Valid() && |key| == cfg.keyBits && |nonce| == 128
    ensures |r.text| == |plain| && |r.tag| == 128
  {
    Crypto(cfg, false, key, nonce, ad, plain)
  }

  datatype Opened = Opened(plain: Bits, valid: bool, computedTag: Bits)

  function Decrypt(cfg: Config, key: Bits, nonce: Bits, ad: Bits, cipher: Bits, tag: Bits): (r: Opened)
    requires cfg.Valid() && |key| == cfg.keyBits && |nonce| == 128
  {
    var c := Crypto(cfg, true, key, nonce, ad, cipher);
    Opened(c.text, c.tag == tag, c.tag)
  }

  // ------------------------------------------------------------ inverses

  // One full block and one partial block, both ways.
  lemma BlockReplaced(s: State, block: Bits)
    requires |block| <= 320
    ensures var t := XorAt(s, 0, block); Splice(s, 0, t[..|block|]) == t && Xor(s[..|block|], t[..|block|]) == block
    ensures var t := Splice(s, 0, block); XorAt(s, 0, Xor(s[..|block|], block)) == t && t[..|block|] == block
  {
  }

  lemma LastEncrypted(s: State, plain: Bits, rate: nat)
    requires |plain| < rate <= 320
    ensures var t := XorAt(s, 0, Pad(plain, rate));
            XorAt(Splice(s, 0, t[..|plain|]), |plain|, [true]) == t && Xor(s[..|plain|], t[..|plain|]) == plain
  {
  }

  lemma LastDecrypted(s: State, cipher: Bits, rate: nat)
    requires |cipher| < rate <= 320
    ensures var t := XorAt(Splice(s, 0, cipher), |cipher|, [true]);
            XorAt(s, 0, Pad(Xor(s[..|cipher|], cipher), rate)) == t && t[..|cipher|] == cipher
  {
  }

  lemma {:induction false} DecryptUndoesEncrypt(cfg: Config, s: State, plain: Bits)
    requires cfg.Valid()
    ensures var e := EncryptText(cfg, s, plain); DecryptText(cfg, s, e.text) == Crypt(e.state, plain)
    decreases |plain|
  {
    hide Permute, Splice, Xor, XorAt, Pad;
    var e := EncryptText(cfg, s, plain);
    if |plain| >= cfg.rate {
      var t := XorAt(s, 0, plain[..cfg.rate]);
      var rest := EncryptText(cfg, Permute(t, cfg.rounds), plain[cfg.rate..]);
      DecryptUndoesEncrypt(cfg, Permute(t, cfg.rounds), plain[cfg.rate..]);
      BlockReplaced(s, plain[..cfg.rate]);
      assert e.text[..cfg.rate] == t[..cfg.rate] && e.text[cfg.rate..] == rest.text;
      assert plain == plain[..cfg.rate] + plain[cfg.rate..];
    } else {
      LastEncrypted(s, plain, cfg.rate);
    }
  }

  lemma {:induction false} EncryptUndoesDecrypt(cfg: Config, s: State, cipher: Bits)
    requires cfg.Valid()
    ensures var d := DecryptText(cfg, s, cipher); EncryptText(cfg, s, d.text) == Crypt(d.state, cipher)
    decreases |cipher|
  {
    hide Permute, Splice, Xor, XorAt, Pad;
    var d := DecryptText(cfg, s, cipher);
    if |cipher| >= cfg.rate {
      var t := Splice(s, 0, cipher[..cfg.rate]);
      var rest := DecryptText(cfg, Permute(t, cfg.rounds), cipher[cfg.rate..]);
      EncryptUndoesDecrypt(cfg, Permute(t, cfg.rounds), cipher[cfg.rate..]);
      BlockReplaced(s, cipher[..cfg.rate]);
      assert d.text[..cfg.rate] == Xor(s[..cfg.rate], cipher[..cfg.rate]) && d.text[cfg.rate..] == rest.text;
      assert cipher == cipher[..cfg.rate] + cipher[cfg.rate..];
    } else {
      LastDecrypted(s, cipher, cfg.rate);
    }
  }

  // Whatever is encrypted decrypts to itself and is accepted.
  lemma RoundTrip(cfg: Config, key: Bits, nonce: Bits, ad: Bits, plain: Bits)
    requires cfg.Valid() && |key| == cfg.keyBits && |nonce| == 128
    ensures var e := Encrypt(cfg, key, nonce, ad, plain);
            Decrypt(cfg, key, nonce, ad, e.text, e.tag) == Opened(plain, true, e.tag)
  {
    DecryptUndoesEncrypt(cfg, ProcessAd(cfg, Initialize(cfg, key, nonce), ad), plain);
  }

  // Encrypting whatever decryption returns, accepted or not, gives the
  // ciphertext back together with the computed tag.
  lemma ReEncrypt(cfg: Config, key: Bits, nonce: Bits, ad: Bits, cipher: Bits, tag: Bits)
    requires cfg.Valid() && |key| == cfg.keyBits && |nonce| == 128
    ensures var d := Decrypt(cfg, key, nonce, ad, cipher, tag);
            Encrypt(cfg, key, nonce, ad, d.plain) == Sealed(cipher, d.computedTag)
  {
    EncryptUndoesDecrypt(cfg, ProcessAd(cfg, Initialize(cfg, key, nonce), ad), cipher);
  }

  // Decryption accepts exactly the pairs that encryption produces.
  lemma AcceptsExactlyEncryptions(cfg: Config, key: Bits, nonce: Bits, ad: Bits, cipher: Bits, tag: Bits)
    requires cfg.Valid() && |key| == cfg.keyBits && |nonce| == 128
    ensures Decrypt(cfg, key, nonce, ad, cipher, tag).valid
            <==> exists plain :: Encrypt(cfg, key, nonce, ad, plain) == Sealed(cipher, tag)
  {
    ReEncrypt(cfg, key, nonce, ad, cipher, tag);
    var d := Decrypt(cfg, key, nonce, ad, cipher, tag);
    if d.valid {
      assert Encrypt(cfg, key, nonce, ad, d.plain) == Sealed(cipher, tag);
    }
    forall plain | Encrypt(cfg, key, nonce, ad, plain) == Sealed(cipher, tag)
      ensures d.valid
    {
      RoundTrip(cfg, key, nonce, ad, plain);
    }
  }

  // Because the permutation is a bijection, two nonces never lead to the same
  // initialized state under one key.
  lemma NoncesStayApart(cfg: Config, key: Bits, nonce: Bits, other: Bits)
    requires cfg.Valid() && |key| == cfg.keyBits && |nonce| == 128 && |other| == 128
    requires Initialize(cfg, key, nonce) == Initialize(cfg, key, other)
    ensures nonce == other
  {
    hide Permute, XorAt;
    PermutationsEqual(cfg.iv + key + nonce, cfg.iv + key + other, 12, 320 - cfg.keyBits, key);
    assert (cfg.iv + key + nonce)[192..] == nonce && (cfg.iv + key + other)[192..] == other;
  }

  lemma PermutationsEqual(a: State, b: State, n: nat, off: nat, x: Bits)
    requires n <= 16 && off + |x| <= 320
    requires XorAt(Permute(a, n), off, x) == XorAt(Permute(b, n), off, x)
    ensures a == b
  {
    hide Permute;
    XorAtCancels(Permute(a, n), Permute(b, n), off, x);
    PermutationBijective(a, n);
    PermutationBijective(b, n);
  }

  lemma XorAtCancels(s: State, t: State, off: nat, b: Bits)
    requires off + |b| <= 320 && XorAt(s, off, b) == XorAt(t, off, b)
    ensures s == t
  {
    forall i | 0 <= i < 320 ensures s[i] == t[i] {
      assert XorAt(s, off, b)[i] == XorAt(t, off, b)[i];
    }
  }
}
