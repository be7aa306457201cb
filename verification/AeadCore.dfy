// The AEAD core: a hardwired state machine around one iterative permutation core.
module AeadCore {
  import opened BitVectors
  import opened Permutation
  import opened Sponge
  import opened Aead
  import opened Counters
  import opened PermutationPort
  import opened PermutationCall
  import opened Wires
  import Perm = IterativePermutation

  // What the generator is given: the variant, the buffer sizes in bytes and the
  // rounds per cycle of the permutation core.
  datatype Params = Params(cfg: Config, adMax: nat, msgMax: nat, R: nat) {
    predicate Valid()
    {
      cfg.Valid() && 0 < R <= 12
    }

    function RateBytes(): (r: nat)
      requires cfg.Valid()
      ensures 8 * r == cfg.rate
    {
      if cfg.rate == 64 then 8 else 16
    }

    // rounds_i of the data phases.
    function DataRounds(): (r: nat)
      requires cfg.Valid()
      ensures RoundCount(r) == cfg.rounds
    {
      if cfg.rounds == 8 then 1 else 0
    }
  }

  datatype Phase = Idle | Permuting | InitKey | AdDecide | AdFull | AdPad | DomSep
                 | MsgDecide | MsgFull | MsgPad | FinKey | FinTag

  // Inputs that the machine samples for as long as it runs.
  datatype Held = Held(key: Bits, ad: Bits, msg: Bits, tag: Bits)

  datatype Inputs = Inputs(start: bool, decrypt: bool, nonce: Bits, adLen: nat, msgLen: nat, held: Held)

  datatype Regs = Regs(s: State, adlen: nat, msglen: nat, adoff: nat, msgoff: nat, dec: bool,
                       st: Phase, permRet: Phase, permRounds: nat, permStart: bool,
                       outR: Bits, tagO: Bits, validO: bool, doneO: bool, perm: Perm.Regs)

  predicate HeldFits(p: Params, h: Held)
  {
    |h.key| == p.cfg.keyBits && |h.ad| == 8 * p.adMax && |h.msg| == 8 * p.msgMax && |h.tag| == 128
  }

  predicate InputsFit(p: Params, i: Inputs)
  {
    HeldFits(p, i.held) && |i.nonce| == 128 && i.adLen < 256 && i.msgLen < 256
  }

  // ------------------------------------------------------------------ wires

  function Block(p: Params, data: Bits, off: nat): (r: Bits)
    ensures |r| == p.cfg.rate
  {
    BlockAt(data, 128, off, p.cfg.rate)
  }

  function PadNewRate(rate: Bits, block: Bits, rem: nat, dec: bool): (r: Bits)
    requires |rate| == |block| > 0
    ensures |r| == |block|
  {
    var mask := Mask(|block|, rem);
    if dec then Xor(Or(And(rate, Not(mask)), And(block, mask)), PadBit(|block|, rem))
    else Xor(rate, Padded(block, rem))
  }

  function PadOut(rate: Bits, block: Bits, rem: nat, dec: bool): (r: Bits)
    requires |rate| == |block| > 0
    ensures |r| == |block|
  {
    if dec then Xor(rate, block) else Xor(rate, Padded(block, rem))
  }

  function TagValue(p: Params, s: State, key: Bits): (r: Bits)
    requires p.Valid() && |key| == p.cfg.keyBits
    ensures |r| == 128
  {
    Xor(s[192..], key[p.cfg.keyBits - 128..])
  }

  // ------------------------------------------------------------------ clock

  function Launch(c: Regs, s: State, rounds: nat, ret: Phase): Regs
  {
    c.(s := s, permRounds := rounds, permRet := ret, permStart := true, st := Permuting)
  }

  // The call in progress at the permutation core.
  function Port(c: Regs): Call
  {
    Call(c.permStart, c.permRounds, c.s, c.perm)
  }

  function Control(p: Params, c: Regs, i: Inputs): (c': Regs)
    requires p.Valid() && InputsFit(p, i)
    ensures |c'.outR| == |c.outR|
  {
    hide XorAt, Xor, Block, PadOut, PadNewRate, Padded, TagValue, Write;
    var h := i.held;
    var w := p.cfg.rate;
    var q := c.(permStart := false);
    match c.st
    case Idle =>
      if i.start then
        Launch(c.(doneO := false, adlen := i.adLen, msglen := i.msgLen, dec := i.decrypt,
                  adoff := 0, msgoff := 0, outR := Zeros(|c.outR|)),
               p.cfg.iv + h.key + i.nonce, 2, InitKey)
      else q
    case Permuting =>
      if c.perm.validO then q.(s := c.perm.stateO, st := c.permRet) else q
    case InitKey =>
      q.(s := Xor(c.s, Zeros(320 - p.cfg.keyBits) + h.key), st := AdDecide)
    case AdDecide =>
      q.(st := if c.adlen == 0 then DomSep else if Rem(c.adlen, c.adoff) >= p.RateBytes() then AdFull else AdPad)
    case AdFull =>
      Launch(c.(adoff := (c.adoff + p.RateBytes()) % 256),
             Xor(c.s, Block(p, h.ad, c.adoff) + Zeros(320 - w)), p.DataRounds(), AdDecide)
    case AdPad =>
      Launch(c, Xor(c.s, Padded(Block(p, h.ad, c.adoff), Rem(c.adlen, c.adoff)) + Zeros(320 - w)), p.DataRounds(),
             DomSep)
    case DomSep =>
      q.(s := Xor(c.s, Zeros(256) + (Zeros(63) + [true])), st := MsgDecide)
    case MsgDecide =>
      q.(st := if c.msglen == 0 then MsgPad else if Rem(c.msglen, c.msgoff) >= p.RateBytes() then MsgFull else MsgPad)
    case MsgFull =>
      var block := Block(p, h.msg, c.msgoff);
      var fullOut := Xor(c.s[..w], block);
      Launch(c.(outR := Write(c.outR, 8 * c.msgoff, fullOut), msgoff := (c.msgoff + p.RateBytes()) % 256),
             (if c.dec then block else fullOut) + c.s[w..], p.DataRounds(), MsgDecide)
    case MsgPad =>
      var block := Block(p, h.msg, c.msgoff);
      var rem := Rem(c.msglen, c.msgoff);
      q.(outR := Write(c.outR, 8 * c.msgoff, PadOut(c.s[..w], block, rem, c.dec)),
         s := PadNewRate(c.s[..w], block, rem, c.dec) + c.s[w..], st := FinKey)
    case FinKey =>
      Launch(c, Xor(c.s, Zeros(256 - p.cfg.keyBits) + h.key + Zeros(64)), 2, FinTag)
    case FinTag =>
      var tag := TagValue(p, c.s, h.key);
      q.(tagO := tag, validO := if c.dec then tag == h.tag else true, doneO := true, st := Idle)
  }

  // Both state machines step on the old values of all registers.
  function Next(p: Params, c: Regs, i: Inputs): (c': Regs)
    requires p.Valid() && InputsFit(p, i)
    ensures |c'.outR| == |c.outR|
  {
    Control(p, c, i).(perm := Clocked(p.R, Port(c)))
  }

  class Core {
    const p: Params
    const perm: Perm.Core
    var s: State
    var adlen: nat
    var msglen: nat
    var adoff: nat
    var msgoff: nat
    var dec: bool
    var st: Phase
    var permRet: Phase
    var permRounds: nat
    var permStart: bool
    var outR: Bits
    var tagO: Bits
    var validO: bool
    var doneO: bool

    ghost predicate Wired()
    {
      p.Valid() && perm.R == p.R
    }

    function Registers(): Regs
      reads this, perm
    {
      Regs(s, adlen, msglen, adoff, msgoff, dec, st, permRet, permRounds, permStart, outR, tagO, validO, doneO,
           perm.Registers())
    }

    constructor (p: Params)
      requires p.Valid()
      ensures this.p == p && Wired() && fresh(perm)
      ensures Resting(p, Registers()) && !doneO
    {
      this.p := p;
      perm := new Perm.Core(p.R);
      st, permRet, permRounds, permStart := Idle, Idle, 0, false;
      s, outR, tagO := Zeros(320), Zeros(8 * (p.msgMax + 16)), Zeros(128);
      adlen, msglen, adoff, msgoff := 0, 0, 0, 0;
      dec, validO, doneO := false, false, false;
    }

    // One edge: the controller's registers first, then the permutation core,
    // which samples the controller's old outputs.
    method Step(i: Inputs)
      requires Wired() && InputsFit(p, i)
      modifies this, perm
      ensures Registers() == Next(p, old(Registers()), i)
    {
      hide Control, Perm.Next;
      var sampled := PermutationPort.Inputs(permStart, permRounds, s);
      match st {
        case Idle => Accept(i);
        case Permuting => Return(i);
        case InitKey => AddInitialKey(i);
        case AdDecide => DecideAd(i);
        case AdFull => AbsorbFull(i);
        case AdPad => AbsorbPad(i);
        case DomSep => Separate(i);
        case MsgDecide => DecideMessage(i);
        case MsgFull => CryptFull(i);
        case MsgPad => CryptPad(i);
        case FinKey => AddFinalKey(i);
        case FinTag => EmitTag(i);
      }
      perm.Step(sampled);
    }

    method StartPermutation(t: State, rounds: nat, ret: Phase)
      modifies this
      ensures Registers() == Launch(old(Registers()), t, rounds, ret)
    {
      s, permRounds, permRet, permStart, st := t, rounds, ret, true, Permuting;
    }

    method Advance(t: State, to: Phase)
      modifies this
      ensures Registers() == old(Registers()).(s := t, permStart := false, st := to)
    {
      s, permStart, st := t, false, to;
    }

    method LatchJob(i: Inputs)
      modifies this
      ensures Registers() == old(Registers()).(doneO := false, adlen := i.adLen, msglen := i.msgLen, dec := i.decrypt,
                                               adoff := 0, msgoff := 0, outR := Zeros(|old(outR)|))
    {
      hide Zeros;
      ClearOutput();
      doneO, adlen, msglen, dec := false, i.adLen, i.msgLen, i.decrypt;
    }

    method ClearOutput()
      modifies this
      ensures Registers() == old(Registers()).(adoff := 0, msgoff := 0, outR := Zeros(|old(outR)|))
    {
      hide Zeros;
      adoff, msgoff, outR := 0, 0, Zeros(|outR|);
    }

    method Accept(i: Inputs)
      requires Wired() && InputsFit(p, i) && st == Idle
      modifies this
      ensures Registers() == Control(p, old(Registers()), i)
    {
      hide XorAt, Xor, Block, PadOut, PadNewRate, Padded, TagValue, Write, Clocked, Splice, Zeros, Rem;
      if i.start {
        LatchJob(i);
        StartPermutation(p.cfg.iv + i.held.key + i.nonce, 2, InitKey);
      } else {
        permStart := false;
      }
    }

    method Return(i: Inputs)
      requires Wired() && InputsFit(p, i) && st == Permuting
      modifies this
      ensures Registers() == Control(p, old(Registers()), i)
    {
      hide XorAt, Xor, Block, PadOut, PadNewRate, Padded, TagValue, Write, Clocked, Splice, Zeros, Rem;
      permStart := false;
      if perm.validO {
        s, st := perm.stateO, permRet;
      }
    }

    method AddInitialKey(i: Inputs)
      requires Wired() && InputsFit(p, i) && st == InitKey
      modifies this
      ensures Registers() == Control(p, old(Registers()), i)
    {
      hide XorAt, Xor, Block, PadOut, PadNewRate, Padded, TagValue, Write, Clocked, Splice, Zeros, Rem;
      Advance(Xor(s, Zeros(320 - p.cfg.keyBits) + i.held.key), AdDecide);
    }

    method DecideAd(i: Inputs)
      requires Wired() && InputsFit(p, i) && st == AdDecide
      modifies this
      ensures Registers() == Control(p, old(Registers()), i)
    {
      hide XorAt, Xor, Block, PadOut, PadNewRate, Padded, TagValue, Write, Clocked, Splice, Zeros, Rem;
      permStart := false;
      st := if adlen == 0 then DomSep else if Rem(adlen, adoff) >= p.RateBytes() then AdFull else AdPad;
    }

    method AbsorbFull(i: Inputs)
      requires Wired() && InputsFit(p, i) && st == AdFull
      modifies this
      ensures Registers() == Control(p, old(Registers()), i)
    {
      hide XorAt, Xor, Block, PadOut, PadNewRate, Padded, TagValue, Write, Clocked, Splice, Zeros, Rem;
      var t := Xor(s, Block(p, i.held.ad, adoff) + Zeros(320 - p.cfg.rate));
      adoff := (adoff + p.RateBytes()) % 256;
      StartPermutation(t, p.DataRounds(), AdDecide);
    }

    method AbsorbPad(i: Inputs)
      requires Wired() && InputsFit(p, i) && st == AdPad
      modifies this
      ensures Registers() == Control(p, old(Registers()), i)
    {
      hide XorAt, Xor, Block, PadOut, PadNewRate, Padded, TagValue, Write, Clocked, Splice, Zeros, Rem;
      StartPermutation(Xor(s, Padded(Block(p, i.held.ad, adoff), Rem(adlen, adoff)) + Zeros(320 - p.cfg.rate)),
                       p.DataRounds(), DomSep);
    }

    method Separate(i: Inputs)
      requires Wired() && InputsFit(p, i) && st == DomSep
      modifies this
      ensures Registers() == Control(p, old(Registers()), i)
    {
      hide XorAt, Xor, Block, PadOut, PadNewRate, Padded, TagValue, Write, Clocked, Splice, Zeros, Rem;
      Advance(Xor(s, Zeros(256) + (Zeros(63) + [true])), MsgDecide);
    }

    method DecideMessage(i: Inputs)
      requires Wired() && InputsFit(p, i) && st == MsgDecide
      modifies this
      ensures Registers() == Control(p, old(Registers()), i)
    {
      hide XorAt, Xor, Block, PadOut, PadNewRate, Padded, TagValue, Write, Clocked, Splice, Zeros, Rem;
      permStart := false;
      st := if msglen == 0 then MsgPad else if Rem(msglen, msgoff) >= p.RateBytes() then MsgFull else MsgPad;
    }

    method CryptFull(i: Inputs)
      requires Wired() && InputsFit(p, i) && st == MsgFull
      modifies this
      ensures Registers() == Control(p, old(Registers()), i)
    {
      hide XorAt, Xor, Block, PadOut, PadNewRate, Padded, TagValue, Write, Clocked, Splice, Zeros, Rem;
      var w, block := p.cfg.rate, Block(p, i.held.msg, msgoff);
      var fullOut := Xor(s[..w], block);
      outR := Write(outR, 8 * msgoff, fullOut);
      msgoff := (msgoff + p.RateBytes()) % 256;
      StartPermutation((if dec then block else fullOut) + s[w..], p.DataRounds(), MsgDecide);
    }

    method CryptPad(i: Inputs)
      requires Wired() && InputsFit(p, i) && st == MsgPad
      modifies this
      ensures Registers() == Control(p, old(Registers()), i)
    {
      hide XorAt, Xor, Block, PadOut, PadNewRate, Padded, TagValue, Write, Clocked, Splice, Zeros, Rem;
      var w, block, rem := p.cfg.rate, Block(p, i.held.msg, msgoff), Rem(msglen, msgoff);
      outR := Write(outR, 8 * msgoff, PadOut(s[..w], block, rem, dec));
      Advance(PadNewRate(s[..w], block, rem, dec) + s[w..], FinKey);
    }

    method AddFinalKey(i: Inputs)
      requires Wired() && InputsFit(p, i) && st == FinKey
      modifies this
      ensures Registers() == Control(p, old(Registers()), i)
    {
      hide XorAt, Xor, Block, PadOut, PadNewRate, Padded, TagValue, Write, Clocked, Splice, Zeros, Rem;
      StartPermutation(Xor(s, Zeros(256 - p.cfg.keyBits) + i.held.key + Zeros(64)), 2, FinTag);
    }

    method EmitTag(i: Inputs)
      requires Wired() && InputsFit(p, i) && st == FinTag
      modifies this
      ensures Registers() == Control(p, old(Registers()), i)
    {
      hide XorAt, Xor, Block, PadOut, PadNewRate, Padded, TagValue, Write, Clocked, Splice, Zeros, Rem;
      LatchTag(TagValue(p, s, i.held.key), i.held.tag);
      doneO, permStart, st := true, false, Idle;
    }

    method LatchTag(tag: Bits, expected: Bits)
      modifies this
      ensures Registers() == old(Registers()).(tagO := tag, validO := if old(dec) then tag == expected else true)
    {
      tagO := tag;
      validO := if dec then tag == expected else true;
    }
  }

  // ------------------------------------------------------------ correctness

  predicate Resting(p: Params, c: Regs)
  {
    c.st == Idle && Quiet(Port(c)) && |c.outR| == 8 * (p.msgMax + 16)
  }

  predicate BeforeMessage(at: Phase)
  {
    at.InitKey? || at.AdDecide? || at.AdFull? || at.AdPad? || at.DomSep?
  }

  predicate Busy(p: Params, c: Regs): (busy: bool)
    ensures busy && c.st == Permuting ==> InFlight(Port(c))
  {
    && p.Valid() && |c.outR| == 8 * (p.msgMax + 16)
    && c.adoff <= c.adlen <= p.adMax && c.adlen < 256
    && c.msgoff <= c.msglen <= p.msgMax && c.msglen < 256
    && c.st != Idle
    && (c.st == Permuting ==>
          InFlight(Port(c)) && (c.permRet.InitKey? || c.permRet.AdDecide? || c.permRet.DomSep? || c.permRet.MsgDecide?
              || c.permRet.FinTag?))
    && (c.st != Permuting ==> Quiet(Port(c)))
    && (BeforeMessage(At(c)) ==> c.msgoff == 0)
    && (At(c) == InitKey ==> c.adoff == 0)
    && (c.st == AdFull ==> c.adlen - c.adoff >= p.RateBytes())
    && (c.st == AdPad ==> 0 < c.adlen && c.adlen - c.adoff < p.RateBytes())
    && (c.st == MsgFull ==> c.msglen - c.msgoff >= p.RateBytes())
    && (c.st == MsgPad ==> c.msglen - c.msgoff < p.RateBytes())
  }

  // The control state that follows, and the sponge state it will see.
  function At(c: Regs): Phase
  {
    if c.st == Permuting then c.permRet else c.st
  }

  function Sees(c: Regs): State
    requires c.st == Permuting ==> InFlight(Port(c))
  {
    if c.st == Permuting then Returned(Port(c)) else c.s
  }

  // The message phase from a given sponge state on, after `sofar` of output.
  function FromMessage(p: Params, dec: bool, s: State, key: Bits, text: Bits, sofar: Bits): Sealed
    requires p.Valid() && |key| == p.cfg.keyBits
  {
    var c := CryptText(p.cfg, dec, s, text);
    Sealed(sofar + c.text, Finalize(p.cfg, c.state, key))
  }

  // What the registers mean for the rest of the run: the control state that
  // follows, the sponge state it will see, the text still to come and the
  // output so far.
  datatype View = View(at: Phase, s: State, dec: bool, noAd: bool, ad: Bits, text: Bits, sofar: Bits)

  function ViewOf(p: Params, c: Regs, h: Held): View
    requires Busy(p, c) && HeldFits(p, h)
  {
    View(At(c), Sees(c), c.dec, c.adlen == 0, h.ad[8 * c.adoff..8 * c.adlen], h.msg[8 * c.msgoff..8 * c.msglen],
         c.outR[..if At(c) == FinKey || At(c) == FinTag then 8 * c.msglen else 8 * c.msgoff])
  }

  // What is still to be computed.
  function ResultFrom(p: Params, v: View, key: Bits): Sealed
    requires p.Valid() && |key| == p.cfg.keyBits
  {
    match v.at
    case InitKey =>
      var t := XorAt(v.s, 320 - p.cfg.keyBits, key);
      FromMessage(p, v.dec, DomainSeparate(if v.noAd then t else AbsorbAd(p.cfg, t, v.ad)), key, v.text, v.sofar)
    case AdDecide =>
      FromMessage(p, v.dec, DomainSeparate(if v.noAd then v.s else AbsorbAd(p.cfg, v.s, v.ad)), key, v.text, v.sofar)
    case AdFull => FromMessage(p, v.dec, DomainSeparate(AbsorbAd(p.cfg, v.s, v.ad)), key, v.text, v.sofar)
    case AdPad => FromMessage(p, v.dec, DomainSeparate(AbsorbAd(p.cfg, v.s, v.ad)), key, v.text, v.sofar)
    case DomSep => FromMessage(p, v.dec, DomainSeparate(v.s), key, v.text, v.sofar)
    case FinKey => Sealed(v.sofar, Finalize(p.cfg, v.s, key))
    case FinTag => Sealed(v.sofar, TagValue(p, v.s, key))
    case _ => FromMessage(p, v.dec, v.s, key, v.text, v.sofar)
  }

  // The result that the machine is about to deliver, read off its registers.
  function Outcome(p: Params, c: Regs, h: Held): Sealed
    requires Busy(p, c) && HeldFits(p, h)
  {
    ResultFrom(p, ViewOf(p, c, h), h.key)
  }

  function FinLeft(p: Params): nat
    requires p.Valid()
  {
    1 + Dwell(p.R, 12) + 1
  }

  // Edges from the decision about the next message block on, for `rem` bits.
  function MsgLeft(p: Params, rem: nat): (n: nat)
    requires p.Valid()
    ensures n > 1
    decreases rem, p
  {
    if rem >= p.cfg.rate then 2 + Dwell(p.R, p.cfg.rounds) + MsgLeft(p, rem - p.cfg.rate)
    else 2 + FinLeft(p)
  }

  function AdLeft(p: Params, rem: nat, msg: nat): (n: nat)
    requires p.Valid()
    ensures n > 1
    decreases rem, p
  {
    if rem >= p.cfg.rate then 2 + Dwell(p.R, p.cfg.rounds) + AdLeft(p, rem - p.cfg.rate, msg)
    else 2 + Dwell(p.R, p.cfg.rounds) + 1 + MsgLeft(p, msg)
  }

  // Edges from a control state to the one that raises done_o.
  function LeftFrom(p: Params, v: View): (n: nat)
    requires p.Valid()
    ensures n > 0
  {
    var decide := if v.noAd then 2 + MsgLeft(p, |v.text|) else AdLeft(p, |v.ad|, |v.text|);
    match v.at
    case InitKey => 1 + decide
    case AdDecide => decide
    case AdFull => AdLeft(p, |v.ad|, |v.text|) - 1
    case AdPad => AdLeft(p, |v.ad|, |v.text|) - 1
    case DomSep => 1 + MsgLeft(p, |v.text|)
    case MsgDecide => MsgLeft(p, |v.text|)
    case MsgFull => MsgLeft(p, |v.text|) - 1
    case MsgPad => MsgLeft(p, |v.text|) - 1
    case FinKey => FinLeft(p)
    case _ => 1
  }

  function PermLeft(p: Params, c: Regs): nat
    requires p.Valid()
  {
    if c.st == Permuting then EdgesLeft(p.R, Port(c)) else 0
  }

  function Left(p: Params, c: Regs, h: Held): nat
    requires Busy(p, c) && HeldFits(p, h)
  {
    PermLeft(p, c) + LeftFrom(p, ViewOf(p, c, h))
  }

  // ---------------------------------------------------- wires mean blocks

  lemma KeyByXor(s: State, off: nat, key: Bits)
    requires off + |key| <= 320
    ensures Xor(s, Zeros(off) + key + Zeros(320 - off - |key|)) == XorAt(s, off, key)
  {
    XorPlaced(s, off, key);
  }

  lemma SeparatedByXor(s: State)
    ensures Xor(s, Zeros(256) + (Zeros(63) + [true])) == DomainSeparate(s)
  {
  }

  lemma FullRate(s: State, block: Bits, dec: bool)
    requires |block| <= 320
    ensures var out := Xor(s[..|block|], block);
            var t := if dec then Splice(s, 0, block) else XorAt(s, 0, block);
            && (if dec then block else out) + s[|block|..] == t
            && out == if dec then Xor(s[..|block|], block) else t[..|block|]
  {
  }

  lemma EncryptRate(rate: Bits, block: Bits, rem: nat)
    requires 8 * rem < |block| == |rate|
    ensures Xor(rate, Padded(block, rem)) == XorAt(rate, 0, Pad(block[..8 * rem], |block|))
  {
    hide Pad, Padded;
    PaddedIsPad(block, rem);
  }

  lemma DecryptRate(rate: Bits, block: Bits, rem: nat)
    requires 8 * rem < |block| == |rate|
    ensures PadNewRate(rate, block, rem, true) == XorAt(Splice(rate, 0, block[..8 * rem]), 8 * rem, [true])
  {
    hide PadBit, Mask;
    PadBitAt(|block|, rem);
  }

  // What is done to the rate is done to the low end of the state.
  lemma RateOfState(s: State, w: nat, off: nat, v: Bits)
    requires off + |v| <= w <= 320
    ensures XorAt(s[..w], off, v) + s[w..] == XorAt(s, off, v)
    ensures Splice(s[..w], off, v) + s[w..] == Splice(s, off, v)
    ensures Splice(s, off, v)[..w] == Splice(s[..w], off, v) && Splice(s, off, v)[w..] == s[w..]
  {
  }

  lemma PartialEncrypt(s: State, block: Bits, rem: nat)
    requires 8 * rem < |block| <= 320
    ensures var n := 8 * rem;
            var t := XorAt(s, 0, Pad(block[..n], |block|));
            && PadNewRate(s[..|block|], block, rem, false) + s[|block|..] == t
            && PadOut(s[..|block|], block, rem, false)[..n] == t[..n]
  {
    hide Pad, Padded, Xor, XorAt;
    EncryptRate(s[..|block|], block, rem);
    RateOfState(s, |block|, 0, Pad(block[..8 * rem], |block|));
  }

  lemma PartialDecrypt(s: State, block: Bits, rem: nat)
    requires 8 * rem < |block| <= 320
    ensures var n := 8 * rem;
            && PadNewRate(s[..|block|], block, rem, true) + s[|block|..] == XorAt(Splice(s, 0, block[..n]), n, [true])
            && PadOut(s[..|block|], block, rem, true)[..n] == Xor(s[..n], block[..n])
  {
    hide PadNewRate, XorAt, Splice;
    var w, t := |block|, Splice(s, 0, block[..8 * rem]);
    DecryptRate(s[..w], block, rem);
    RateOfState(s, w, 0, block[..8 * rem]);
    RateOfState(t, w, 8 * rem, [true]);
  }

  lemma PartialRate(s: State, block: Bits, rem: nat, dec: bool)
    requires 8 * rem < |block| <= 320
    ensures var n := 8 * rem;
            var t := if dec then XorAt(Splice(s, 0, block[..n]), n, [true]) else XorAt(s, 0, Pad(block[..n], |block|));
            && PadNewRate(s[..|block|], block, rem, dec) + s[|block|..] == t
            && PadOut(s[..|block|], block, rem, dec)[..n] == if dec then Xor(s[..n], block[..n]) else t[..n]
  {
    hide PadNewRate, PadOut, XorAt, Splice, Pad, Xor;
    if dec {
      PartialDecrypt(s, block, rem);
    } else {
      PartialEncrypt(s, block, rem);
    }
  }

  // ------------------------------------------------------------- one edge

  // The result as the outside sees it, with nothing left in flight.
  predicate Delivered(p: Params, c: Regs, msglen: nat, dec: bool, tag: Bits, result: Sealed)
    requires msglen <= p.msgMax
  {
    && Resting(p, c) && c.doneO
    && c.outR[..8 * msglen] == result.text
    && c.tagO == result.tag
    && c.validO == if dec then result.tag == tag else true
  }

  // Each edge keeps the outcome and uses up one of the edges left; the last
  // edge delivers it.
  predicate Progress(p: Params, c: Regs, c': Regs, h: Held)
    requires Busy(p, c) && HeldFits(p, h)
  {
    if c.st == FinTag then Left(p, c, h) == 1 && Delivered(p, c', c.msglen, c.dec, h.tag, Outcome(p, c, h))
    else
      && Kept(p, c, c')
      && Outcome(p, c', h) == Outcome(p, c, h)
      && Left(p, c', h) == Left(p, c, h) - 1
  }

  predicate Kept(p: Params, c: Regs, c': Regs)
  {
    Busy(p, c') && c'.doneO == c.doneO && c'.adlen == c.adlen && c'.msglen == c.msglen && c'.dec == c.dec
  }

  // The new state and the output of a full and of a partial text block.
  function FullState(dec: bool, s: State, block: Bits): State
    requires |block| <= 320
  {
    if dec then Splice(s, 0, block) else XorAt(s, 0, block)
  }

  function LastState(dec: bool, s: State, text: Bits, rate: nat): State
    requires |text| < rate <= 320
  {
    if dec then XorAt(Splice(s, 0, text), |text|, [true]) else XorAt(s, 0, Pad(text, rate))
  }

  function TextOut(dec: bool, s: State, text: Bits, t: State): (r: Bits)
    requires |text| <= 320
    ensures |r| == |text|
  {
    if dec then Xor(s[..|text|], text) else t[..|text|]
  }

  // The view after the control state of u has done its work.
  function After(p: Params, u: View, key: Bits): View
    requires p.Valid() && |key| == p.cfg.keyBits
  {
    var w, d := p.cfg.rate, p.cfg.rounds;
    match u.at
    case InitKey => u.(at := AdDecide, s := XorAt(u.s, 320 - p.cfg.keyBits, key))
    case AdDecide => u.(at := if u.noAd then DomSep else if |u.ad| >= w then AdFull else AdPad)
    case AdFull =>
      if |u.ad| < w then u
      else u.(at := AdDecide, s := Permute(XorAt(u.s, 0, u.ad[..w]), d), ad := u.ad[w..])
    case AdPad =>
      if |u.ad| >= w then u
      else u.(at := DomSep, s := Permute(XorAt(u.s, 0, Pad(u.ad, w)), d))
    case DomSep => u.(at := MsgDecide, s := DomainSeparate(u.s))
    case MsgDecide => u.(at := if |u.text| >= w then MsgFull else MsgPad)
    case MsgFull =>
      if |u.text| < w then u
      else
        var t := FullState(u.dec, u.s, u.text[..w]);
        u.(at := MsgDecide, s := Permute(t, d), text := u.text[w..],
           sofar := u.sofar + TextOut(u.dec, u.s, u.text[..w], t))
    case MsgPad =>
      if |u.text| >= w then u
      else
        var t := LastState(u.dec, u.s, u.text, w);
        u.(at := FinKey, s := t, sofar := u.sofar + TextOut(u.dec, u.s, u.text, t))
    case FinKey => u.(at := FinTag, s := Permute(XorAt(u.s, 256 - p.cfg.keyBits, key), 12))
    case _ => u
  }

  // The edges that the permutation takes after that work.
  function Pause(p: Params, at: Phase): nat
    requires p.Valid()
  {
    match at
    case FinKey => Dwell(p.R, 12)
    case AdFull => Dwell(p.R, p.cfg.rounds)
    case AdPad => Dwell(p.R, p.cfg.rounds)
    case MsgFull => Dwell(p.R, p.cfg.rounds)
    case _ => 0
  }

  // The registers after an edge mean v, with `dwell` edges of permuting first.
  predicate Goes(p: Params, c: Regs, c': Regs, h: Held, v: View, dwell: nat)
    requires HeldFits(p, h)
  {
    Kept(p, c, c') && ViewOf(p, c', h) == v && PermLeft(p, c') == dwell
  }

  predicate Works(p: Params, c: Regs, i: Inputs)
    requires Busy(p, c) && InputsFit(p, i)
  {
    Goes(p, c, Next(p, c, i), i.held, After(p, ViewOf(p, c, i.held), i.held.key), Pause(p, c.st))
  }

  // The work and the pause compute what is still to be computed, one edge nearer
  // the end.
  predicate Continues(p: Params, u: View, key: Bits)
    requires p.Valid() && |key| == p.cfg.keyBits
  {
    var v := After(p, u, key);
    && ResultFrom(p, v, key) == ResultFrom(p, u, key)
    && Pause(p, u.at) + LeftFrom(p, v) == LeftFrom(p, u) - 1
  }

  lemma StepProgresses(p: Params, c: Regs, i: Inputs)
    requires Busy(p, c) && InputsFit(p, i) && c.st != Permuting && c.st != FinTag
    requires Works(p, c, i) && Continues(p, ViewOf(p, c, i.held), i.held.key)
    ensures Progress(p, c, Next(p, c, i), i.held)
  {
    hide Next, Sees, After, Pause, ResultFrom, LeftFrom, Delivered;
  }

  lemma PermRests(p: Params, c: Regs)
    requires Quiet(Port(c))
    ensures Clocked(p.R, Port(c)) == c.perm
  {
    Rests(p.R, Port(c));
  }

  lemma PermutingStep(p: Params, c: Regs, i: Inputs)
    requires Busy(p, c) && InputsFit(p, i) && c.st == Permuting
    ensures PermLeft(p, c) > 0 && Goes(p, c, Next(p, c, i), i.held, ViewOf(p, c, i.held), PermLeft(p, c) - 1)
  {
    hide Returned, EdgesLeft, Clocked;
    if c.perm.validO {
      Taken(p, c);
    } else {
      Waits(p.R, Port(c));
    }
  }

  lemma Taken(p: Params, c: Regs)
    requires p.Valid() && InFlight(Port(c)) && c.perm.validO
    ensures Returned(Port(c)) == c.perm.stateO && EdgesLeft(p.R, Port(c)) == 1
    ensures !c.permStart && Quiet(Port(c).(perm := Clocked(p.R, Port(c))))
  {
    hide Clocked;
    Ends(p.R, Port(c));
  }

  lemma AdFullWires(p: Params, s: State, data: Bits, off: nat, len: nat)
    requires p.Valid() && off <= len < 256 && 8 * len <= |data| && len - off >= p.RateBytes()
    ensures var ad, w, off' := data[8 * off..8 * len], p.cfg.rate, off + p.RateBytes();
            && Xor(s, Block(p, data, off) + Zeros(320 - w)) == XorAt(s, 0, ad[..w])
            && off' % 256 == off' && ad[w..] == data[8 * off'..8 * len]
  {
    hide Xor, XorAt, BlockAt;
    var ad, w := data[8 * off..8 * len], p.cfg.rate;
    FullBlock(data, 128, off, p.cfg.rate);
    AbsorbedByXor(s, Block(p, data, off));
    SliceOfSlice(data, 8 * off, 8 * len, w);
  }

  lemma AdPadWires(p: Params, s: State, data: Bits, off: nat, len: nat)
    requires p.Valid() && off <= len < 256 && 8 * len <= |data| && len - off < p.RateBytes()
    ensures Xor(s, Padded(Block(p, data, off), Rem(len, off)) + Zeros(320 - p.cfg.rate))
            == XorAt(s, 0, Pad(data[8 * off..8 * len], p.cfg.rate))
  {
    hide Xor, XorAt, BlockAt, Padded, Pad, Rem;
    var block := Block(p, data, off);
    RemIsRest(len, off);
    PartialBlock(data, 128, off, len, p.cfg.rate);
    PaddedIsPad(block, len - off);
    AbsorbedByXor(s, Padded(block, len - off));
  }

  lemma MsgFullWires(p: Params, s: State, dec: bool, data: Bits, off: nat, len: nat, outR: Bits)
    requires p.Valid() && off <= len < 256 && 8 * len <= |data| && len - off >= p.RateBytes() && 8 * len <= |outR|
    ensures var text, w, off' := data[8 * off..8 * len], p.cfg.rate, off + p.RateBytes();
            var block := Block(p, data, off);
            var out, t := Xor(s[..w], block), FullState(dec, s, text[..w]);
            && (if dec then block else out) + s[w..] == t
            && Write(outR, 8 * off, out)[..8 * off'] == outR[..8 * off] + TextOut(dec, s, text[..w], t)
            && off' % 256 == off' && text[w..] == data[8 * off'..8 * len]
  {
    hide Xor, XorAt, Splice, BlockAt, Write;
    var text, w := data[8 * off..8 * len], p.cfg.rate;
    var block := Block(p, data, off);
    var out := Xor(s[..w], block);
    FullBlock(data, 128, off, p.cfg.rate);
    FullRate(s, block, dec);
    SliceOfSlice(data, 8 * off, 8 * len, w);
    WrittenPrefix(outR, 8 * off, out, w);
    assert out[..w] == out;
  }

  lemma MsgPadWires(p: Params, s: State, dec: bool, data: Bits, off: nat, len: nat, outR: Bits)
    requires p.Valid() && off <= len < 256 && 8 * len <= |data| && len - off < p.RateBytes() && 8 * len <= |outR|
    ensures var text, w := data[8 * off..8 * len], p.cfg.rate;
            var block, t := Block(p, data, off), LastState(dec, s, text, w);
            && PadNewRate(s[..w], block, Rem(len, off), dec) + s[w..] == t
            && Write(outR, 8 * off, PadOut(s[..w], block, Rem(len, off), dec))[..8 * len]
               == outR[..8 * off] + TextOut(dec, s, text, t)
  {
    hide Xor, XorAt, Splice, BlockAt, Write, PadOut, PadNewRate, Pad, Rem;
    var block, rem := Block(p, data, off), len - off;
    RemIsRest(len, off);
    PartialBlock(data, 128, off, len, p.cfg.rate);
    PartialRate(s, block, rem, dec);
    WrittenPrefix(outR, 8 * off, PadOut(s[..p.cfg.rate], block, rem, dec), 8 * rem);
  }

  lemma InitKeyWorks(p: Params, c: Regs, i: Inputs)
    requires Busy(p, c) && InputsFit(p, i) && c.st == InitKey
    ensures Works(p, c, i)
  {
    hide Permute, XorAt, Xor, Splice, TagValue, Rem, Clocked, Block, Padded, Pad, PadOut, PadNewRate, Write,
         DomainSeparate, Dwell;
    PermRests(p, c);
    KeyByXor(c.s, 320 - p.cfg.keyBits, i.held.key);
    assert Zeros(320 - p.cfg.keyBits) + i.held.key + Zeros(0) == Zeros(320 - p.cfg.keyBits) + i.held.key;
  }

  lemma AdDecideWorks(p: Params, c: Regs, i: Inputs)
    requires Busy(p, c) && InputsFit(p, i) && c.st == AdDecide
    ensures Works(p, c, i)
  {
    hide Permute, XorAt, Xor, Splice, TagValue, Rem, Clocked, Block, Padded, Pad, PadOut, PadNewRate, Write,
         DomainSeparate, Dwell;
    PermRests(p, c);
    RemIsRest(c.adlen, c.adoff);
  }

  lemma MsgDecideWorks(p: Params, c: Regs, i: Inputs)
    requires Busy(p, c) && InputsFit(p, i) && c.st == MsgDecide
    ensures Works(p, c, i)
  {
    hide Permute, XorAt, Xor, Splice, TagValue, Rem, Clocked, Block, Padded, Pad, PadOut, PadNewRate, Write,
         DomainSeparate, Dwell;
    PermRests(p, c);
    RemIsRest(c.msglen, c.msgoff);
  }

  lemma DomSepWorks(p: Params, c: Regs, i: Inputs)
    requires Busy(p, c) && InputsFit(p, i) && c.st == DomSep
    ensures Works(p, c, i)
  {
    hide Permute, XorAt, Xor, Splice, TagValue, Rem, Clocked, Block, Padded, Pad, PadOut, PadNewRate, Write,
         DomainSeparate, Dwell;
    PermRests(p, c);
    SeparatedByXor(c.s);
  }

  lemma AdFullNext(p: Params, c: Regs, i: Inputs)
    requires Busy(p, c) && InputsFit(p, i) && c.st == AdFull
    ensures Next(p, c, i)
            == Launch(c.(adoff := c.adoff + p.RateBytes()),
                      XorAt(c.s, 0, i.held.ad[8 * c.adoff..8 * c.adlen][..p.cfg.rate]),
                      p.DataRounds(), AdDecide)
  {
    hide Permute, Xor, XorAt, Block, Clocked;
    PermRests(p, c);
    AdFullWires(p, c.s, i.held.ad, c.adoff, c.adlen);
  }

  lemma AdFullWorks(p: Params, c: Regs, i: Inputs)
    requires Busy(p, c) && InputsFit(p, i) && c.st == AdFull
    ensures Works(p, c, i)
  {
    hide Permute, XorAt, Next, Dwell, Rem;
    AdFullNext(p, c, i);
    AdFullWires(p, c.s, i.held.ad, c.adoff, c.adlen);
  }

  lemma AdPadWorks(p: Params, c: Regs, i: Inputs)
    requires Busy(p, c) && InputsFit(p, i) && c.st == AdPad
    ensures Works(p, c, i)
  {
    hide Permute, XorAt, Xor, Splice, TagValue, Rem, Clocked, Block, Padded, Pad, PadOut, PadNewRate, Write,
         DomainSeparate, Dwell;
    PermRests(p, c);
    AdPadWires(p, c.s, i.held.ad, c.adoff, c.adlen);
  }

  lemma MsgFullNext(p: Params, c: Regs, i: Inputs)
    requires Busy(p, c) && InputsFit(p, i) && c.st == MsgFull
    ensures var block := Block(p, i.held.msg, c.msgoff);
            var t := FullState(c.dec, c.s, i.held.msg[8 * c.msgoff..8 * c.msglen][..p.cfg.rate]);
            Next(p, c, i)
            == Launch(c.(outR := Write(c.outR, 8 * c.msgoff, Xor(c.s[..p.cfg.rate], block)),
                         msgoff := c.msgoff + p.RateBytes()), t, p.DataRounds(), MsgDecide)
  {
    hide Permute, Xor, XorAt, Block, Clocked, FullState, Write;
    PermRests(p, c);
    MsgFullWires(p, c.s, c.dec, i.held.msg, c.msgoff, c.msglen, c.outR);
  }

  lemma MsgFullWorks(p: Params, c: Regs, i: Inputs)
    requires Busy(p, c) && InputsFit(p, i) && c.st == MsgFull
    ensures Works(p, c, i)
  {
    hide Permute, Xor, XorAt, Next, Dwell, Rem, Block, Write, FullState, TextOut;
    MsgFullNext(p, c, i);
    MsgFullWires(p, c.s, c.dec, i.held.msg, c.msgoff, c.msglen, c.outR);
  }

  lemma MsgPadWorks(p: Params, c: Regs, i: Inputs)
    requires Busy(p, c) && InputsFit(p, i) && c.st == MsgPad
    ensures Works(p, c, i)
  {
    hide Permute, XorAt, Xor, Splice, TagValue, Rem, Clocked, Block, Padded, Pad, PadOut, PadNewRate, Write,
         DomainSeparate, Dwell, LastState, TextOut;
    PermRests(p, c);
    MsgPadWires(p, c.s, c.dec, i.held.msg, c.msgoff, c.msglen, c.outR);
  }

  lemma FinKeyWorks(p: Params, c: Regs, i: Inputs)
    requires Busy(p, c) && InputsFit(p, i) && c.st == FinKey
    ensures Works(p, c, i)
  {
    hide Permute, XorAt, Xor, Splice, TagValue, Rem, Clocked, Block, Padded, Pad, PadOut, PadNewRate, Write,
         DomainSeparate, Dwell;
    PermRests(p, c);
    KeyByXor(c.s, 256 - p.cfg.keyBits, i.held.key);
  }

  lemma FinTagStep(p: Params, c: Regs, i: Inputs)
    requires Busy(p, c) && InputsFit(p, i) && c.st == FinTag
    ensures Progress(p, c, Next(p, c, i), i.held)
  {
    hide Permute, TagValue, Clocked;
    PermRests(p, c);
  }

  // ------------------------------------------------- what an edge means

  lemma DecisionContinues(p: Params, u: View, key: Bits)
    requires p.Valid() && |key| == p.cfg.keyBits
    requires u.at == InitKey || u.at == AdDecide || u.at == DomSep || u.at == MsgDecide
    ensures Continues(p, u, key)
  {
    hide Permute, FromMessage, DomainSeparate, AbsorbAd, XorAt, Dwell, MsgLeft, AdLeft, FullState, LastState, TextOut;
  }

  lemma AdContinues(p: Params, u: View, key: Bits)
    requires p.Valid() && |key| == p.cfg.keyBits && !u.noAd
    requires if |u.ad| >= p.cfg.rate then u.at == AdFull else u.at == AdPad
    ensures Continues(p, u, key)
  {
    hide Permute, FromMessage, DomainSeparate, XorAt, Dwell, MsgLeft, Pad, FullState, LastState, TextOut;
  }

  lemma MsgFullContinues(p: Params, u: View, key: Bits)
    requires p.Valid() && |key| == p.cfg.keyBits && u.at == MsgFull && |u.text| >= p.cfg.rate
    ensures Continues(p, u, key)
  {
    hide Permute, XorAt, Xor, Splice, Finalize, Dwell, AdLeft;
    var t := FullState(u.dec, u.s, u.text[..p.cfg.rate]);
    var out := TextOut(u.dec, u.s, u.text[..p.cfg.rate], t);
    var rest := CryptText(p.cfg, u.dec, Permute(t, p.cfg.rounds), u.text[p.cfg.rate..]);
    assert u.sofar + (out + rest.text) == (u.sofar + out) + rest.text;
  }

  lemma MsgPadContinues(p: Params, u: View, key: Bits)
    requires p.Valid() && |key| == p.cfg.keyBits && u.at == MsgPad && |u.text| < p.cfg.rate
    ensures Continues(p, u, key)
  {
    hide Permute, XorAt, Xor, Splice, Finalize, Pad, Dwell, AdLeft;
  }

  lemma TagOfFinal(p: Params, s: State, key: Bits)
    requires p.Valid() && |key| == p.cfg.keyBits
    ensures TagValue(p, Permute(XorAt(s, 256 - p.cfg.keyBits, key), 12), key) == Finalize(p.cfg, s, key)
  {
    hide Permute, XorAt, Xor;
  }

  lemma FinKeyContinues(p: Params, u: View, key: Bits)
    requires p.Valid() && |key| == p.cfg.keyBits && u.at == FinKey
    ensures Continues(p, u, key)
  {
    hide Permute, XorAt, TagValue, Finalize, Dwell, AdLeft, MsgLeft, FromMessage, AbsorbAd, FullState, LastState,
         TextOut;
    TagOfFinal(p, u.s, key);
  }

  lemma ControlWorks(p: Params, c: Regs, i: Inputs)
    requires Busy(p, c) && InputsFit(p, i) && c.st != Permuting && c.st != FinTag
    ensures Works(p, c, i)
  {
    hide Works;
    match c.st {
      case InitKey => InitKeyWorks(p, c, i);
      case AdDecide => AdDecideWorks(p, c, i);
      case AdFull => AdFullWorks(p, c, i);
      case AdPad => AdPadWorks(p, c, i);
      case DomSep => DomSepWorks(p, c, i);
      case MsgDecide => MsgDecideWorks(p, c, i);
      case MsgFull => MsgFullWorks(p, c, i);
      case MsgPad => MsgPadWorks(p, c, i);
      case FinKey => FinKeyWorks(p, c, i);
    }
  }

  lemma ControlContinues(p: Params, c: Regs, h: Held)
    requires Busy(p, c) && HeldFits(p, h) && c.st != Permuting && c.st != FinTag
    ensures Continues(p, ViewOf(p, c, h), h.key)
  {
    hide Continues, Sees;
    var u := ViewOf(p, c, h);
    match c.st {
      case AdFull => AdContinues(p, u, h.key);
      case AdPad => AdContinues(p, u, h.key);
      case MsgFull => MsgFullContinues(p, u, h.key);
      case MsgPad => MsgPadContinues(p, u, h.key);
      case FinKey => FinKeyContinues(p, u, h.key);
      case _ => DecisionContinues(p, u, h.key);
    }
  }

  lemma BusyStep(p: Params, c: Regs, i: Inputs)
    requires Busy(p, c) && InputsFit(p, i)
    ensures Progress(p, c, Next(p, c, i), i.held)
  {
    hide Works, Continues, Next, ResultFrom, LeftFrom, ViewOf, Kept, PermLeft;
    if c.st == Permuting {
      PermutingStep(p, c, i);
    } else if c.st == FinTag {
      FinTagStep(p, c, i);
    } else {
      ControlWorks(p, c, i);
      ControlContinues(p, c, i.held);
      StepProgresses(p, c, i);
    }
  }

  // ------------------------------------------------------------ whole runs

  function Run(p: Params, c: Regs, ins: seq<Inputs>): Regs
    requires p.Valid() && forall k :: 0 <= k < |ins| ==> InputsFit(p, ins[k])
    decreases |ins|
  {
    if |ins| == 0 then c else Run(p, Next(p, c, ins[0]), ins[1..])
  }

  predicate JobFits(p: Params, i: Inputs)
  {
    InputsFit(p, i) && i.adLen <= p.adMax && i.msgLen <= p.msgMax
  }

  // The functional model on the bytes that the lengths select.
  function Expected(p: Params, i: Inputs): Sealed
    requires p.Valid() && JobFits(p, i)
  {
    Crypto(p.cfg, i.decrypt, i.held.key, i.nonce, i.held.ad[..8 * i.adLen], i.held.msg[..8 * i.msgLen])
  }

  // Start to done, both edges included.
  function CoreCycles(p: Params, adLen: nat, msgLen: nat): nat
    requires p.Valid()
  {
    var d := Dwell(p.R, p.cfg.rounds);
    8 + 2 * Dwell(p.R, 12)
    + (if adLen > 0 then Total(adLen / p.RateBytes(), d + 2) + d + 1 else 0)
    + Total(msgLen / p.RateBytes(), d + 2)
  }

  lemma StartStep(p: Params, c: Regs, i: Inputs)
    requires p.Valid() && Resting(p, c) && JobFits(p, i) && i.start
    ensures var c' := Next(p, c, i);
            && Busy(p, c') && !c'.doneO && c'.msglen == i.msgLen && c'.dec == i.decrypt
            && ViewOf(p, c', i.held)
               == View(InitKey, Permute(p.cfg.iv + i.held.key + i.nonce, 12), i.decrypt, i.adLen == 0,
                       i.held.ad[..8 * i.adLen], i.held.msg[..8 * i.msgLen], [])
            && PermLeft(p, c') == Dwell(p.R, 12)
  {
    hide Permute, Perm.Stages, StepsTo;
  }

  lemma StartedResult(p: Params, i: Inputs)
    requires p.Valid() && JobFits(p, i)
    ensures var v := View(InitKey, Permute(p.cfg.iv + i.held.key + i.nonce, 12), i.decrypt, i.adLen == 0,
                          i.held.ad[..8 * i.adLen], i.held.msg[..8 * i.msgLen], []);
            ResultFrom(p, v, i.held.key) == Expected(p, i)
              && 1 + Dwell(p.R, 12) + LeftFrom(p, v) == CoreCycles(p, i.adLen, i.msgLen)
  {
    hide Permute, AbsorbAd, DomainSeparate, XorAt, CryptText, Finalize, StepsTo, MsgLeft, AdLeft;
    MsgLeftClosed(p, i.msgLen);
    AdLeftClosed(p, i.adLen, i.msgLen);
  }

  lemma Quotient(len: nat, rateBytes: nat)
    requires rateBytes == 8 || rateBytes == 16
    ensures len < rateBytes ==> len / rateBytes == 0
    ensures len >= rateBytes ==> len / rateBytes == 1 + (len - rateBytes) / rateBytes
  {
    if rateBytes == 8 {} else {}
  }

  lemma {:induction false} MsgLeftClosed(p: Params, len: nat)
    requires p.Valid()
    ensures MsgLeft(p, 8 * len) == Total(len / p.RateBytes(), Dwell(p.R, p.cfg.rounds) + 2) + 2 + FinLeft(p)
    decreases len
  {
    hide Dwell;
    Quotient(len, p.RateBytes());
    if len >= p.RateBytes() {
      MsgLeftClosed(p, len - p.RateBytes());
      assert 8 * len - p.cfg.rate == 8 * (len - p.RateBytes());
    }
  }

  lemma {:induction false} AdLeftClosed(p: Params, len: nat, msg: nat)
    requires p.Valid()
    ensures var d := Dwell(p.R, p.cfg.rounds);
            AdLeft(p, 8 * len, 8 * msg) == Total(len / p.RateBytes(), d + 2) + d + 3 + MsgLeft(p, 8 * msg)
    decreases len
  {
    hide Dwell, MsgLeft;
    Quotient(len, p.RateBytes());
    if len >= p.RateBytes() {
      AdLeftClosed(p, len - p.RateBytes(), msg);
      assert 8 * len - p.cfg.rate == 8 * (len - p.RateBytes());
    }
  }

  lemma {:induction false} RunBusy(p: Params, c: Regs, ins: seq<Inputs>, h: Held)
    requires Busy(p, c) && HeldFits(p, h) && !c.doneO && |ins| <= Left(p, c, h)
    requires forall k :: 0 <= k < |ins| ==> InputsFit(p, ins[k]) && ins[k].held == h
    ensures var last := Run(p, c, ins);
            if |ins| == Left(p, c, h) then Delivered(p, last, c.msglen, c.dec, h.tag, Outcome(p, c, h))
            else Busy(p, last) && !last.doneO
    decreases |ins|
  {
    hide Next, Outcome, Delivered, PermLeft, ViewOf;
    if |ins| > 0 {
      BusyStep(p, c, ins[0]);
      var c' := Next(p, c, ins[0]);
      if c.st == FinTag {
        assert Run(p, c, ins) == c';
      } else {
        RunBusy(p, c', ins[1..], h);
      }
    }
  }

  // Between jobs nothing changes, so the results stay readable.
  lemma RestStep(p: Params, c: Regs, i: Inputs)
    requires p.Valid() && Resting(p, c) && InputsFit(p, i) && !i.start
    ensures Next(p, c, i) == c
  {
    hide Clocked;
    PermRests(p, c);
  }

  // From rest, with the key, the data buffers and the tag held, a start reaches
  // done after exactly CoreCycles edges, and not before, with the output bytes,
  // the tag and the valid flag of the functional model, ready for the next job.
  lemma CoreComputesAead(p: Params, c: Regs, ins: seq<Inputs>)
    requires p.Valid() && Resting(p, c)
    requires |ins| > 0 && ins[0].start && JobFits(p, ins[0])
    requires forall k :: 0 <= k < |ins| ==> InputsFit(p, ins[k]) && ins[k].held == ins[0].held
    requires |ins| <= CoreCycles(p, ins[0].adLen, ins[0].msgLen)
    ensures var i := ins[0];
            var last := Run(p, c, ins);
            if |ins| == CoreCycles(p, i.adLen, i.msgLen)
            then Delivered(p, last, i.msgLen, i.decrypt, i.held.tag, Expected(p, i))
            else !last.doneO && last.st != Idle
  {
    hide Next, ResultFrom, LeftFrom, Dwell, CoreCycles, Delivered, Expected, Permute;
    StartStep(p, c, ins[0]);
    StartedResult(p, ins[0]);
    RunBusy(p, Next(p, c, ins[0]), ins[1..], ins[0].held);
  }

  // With one round per cycle this is the closed form
  // 36 + (ad > 0: (d + 4) * floor(ad / rate) + d + 3) + (d + 4) * floor(msg / rate).
  lemma OneRoundCycles(p: Params, adLen: nat, msgLen: nat)
    requires p.Valid() && p.R == 1
    ensures var d, r := p.cfg.rounds, p.RateBytes();
            CoreCycles(p, adLen, msgLen)
            == 36 + (if adLen > 0 then (d + 4) * (adLen / r) + d + 3 else 0) + (d + 4) * (msgLen / r)
  {
    StepsToIsCeiling(16, 1, 16 - p.cfg.rounds);
    StepsToIsCeiling(16, 1, 4);
    TotalIsProduct(adLen / p.RateBytes(), p.cfg.rounds + 4);
    TotalIsProduct(msgLen / p.RateBytes(), p.cfg.rounds + 4);
  }

  // The edge that accepts a start leaves the machine owing the expected result.
  lemma Begin(p: Params, c: Regs, i: Inputs)
    requires p.Valid() && Resting(p, c) && JobFits(p, i) && i.start
    ensures var c' := Next(p, c, i);
            && Busy(p, c') && !c'.doneO && c'.msglen == i.msgLen && c'.dec == i.decrypt
            && Outcome(p, c', i.held) == Expected(p, i)
            && Left(p, c', i.held) == CoreCycles(p, i.adLen, i.msgLen) - 1
  {
    hide Next, ResultFrom, LeftFrom, Dwell, CoreCycles, Expected, Permute;
    StartStep(p, c, i);
    StartedResult(p, i);
  }
}
