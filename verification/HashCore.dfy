// The hash, XOF and customized XOF cores: a sponge state machine around one
// iterative permutation core, with one state per output word.
module HashCore {
  import opened BitVectors
  import opened Bytes
  import opened Permutation
  import opened Sponge
  import opened Counters
  import opened PermutationPort
  import opened PermutationCall
  import opened Wires
  import Perm = IterativePermutation

  // customized selects the second emitter: a length word and a customization
  // string come first, and states have five bits instead of four.
  datatype Params = Params(iv: Word, customized: bool, inner: nat, outWords: nat, custMax: nat, msgMax: nat, R: nat) {
    predicate Valid()
    {
      && 0 < R <= 12 && outWords > 0
      && (inner == 12 || (inner == 8 && !customized))
    }

    function DataRounds(): (r: nat)
      requires Valid()
      ensures RoundCount(r) == inner
    {
      if inner == 8 then 1 else 2
    }

    // The code of the first output state, and the number of state codes.
    function FirstOutput(): nat { if customized then 9 else 5 }

    function Codes(): nat { if customized then 32 else 16 }

    // Output words whose states have a code of their own.
    function MaxWords(): nat { Codes() - FirstOutput() }
  }

  datatype Phase = Idle | Permuting | CxLen | CxDecide | CxFull | CxPad | MsgDecide | MsgFull | MsgPad | Output(i: nat)

  // The state that a code selects; the first label that fits wins.
  function Decode(p: Params, code: nat): Phase
  {
    if code == 0 then Idle
    else if code == 1 then Permuting
    else if code >= p.FirstOutput() then Output(code - p.FirstOutput())
    else if p.customized then
      if code == 2 then CxLen else if code == 3 then CxDecide else if code == 4 then CxFull else if code == 5 then CxPad
      else if code == 6 then MsgDecide else if code == 7 then MsgFull else MsgPad
    else
      if code == 2 then MsgDecide else if code == 3 then MsgFull else MsgPad
  }

  // The state entered by assigning the constant of output word i, which has
  // only as many bits as the state register.
  function OutputState(p: Params, i: nat): Phase
  {
    Decode(p, (p.FirstOutput() + i) % p.Codes())
  }

  // The buffers, which the machine samples for as long as it runs.
  datatype Held = Held(cust: Bits, msg: Bits)

  // msgLen is sampled at the start only; custLen once more, for the length word.
  datatype Inputs = Inputs(start: bool, custLen: nat, msgLen: nat, held: Held)

  datatype Regs = Regs(s: State, custlen: nat, custoff: nat, msglen: nat, msgoff: nat, st: Phase, permRet: Phase,
                       permRounds: nat, permStart: bool, digest: Bits, done: bool, perm: Perm.Regs)

  predicate HeldFits(p: Params, h: Held)
  {
    |h.cust| == 8 * p.custMax && |h.msg| == 8 * p.msgMax
  }

  predicate InputsFit(p: Params, i: Inputs)
  {
    HeldFits(p, i.held) && i.custLen < 256 && i.msgLen < 256
  }

  // ------------------------------------------------------------------ clock

  function Launch(c: Regs, s: State, rounds: nat, ret: Phase): Regs
  {
    c.(s := s, permRounds := rounds, permRet := ret, permStart := true, st := Permuting)
  }

  // The call in progress at the permutation core.
  function Port(c: Regs): Call
  {
    Call(c.permStart, c.permRounds, c.s, c.perm)
  }

  // z0 = {cust_len_i, 3'b0}
  function LengthWires(len: nat): Word
  {
    Zeros(3) + ByteBits(len) + Zeros(53)
  }

  function AbsorbWires(s: State, block: Bits): State
    requires |block| == 64
  {
    Xor(s, block + Zeros(256))
  }

  function Control(p: Params, c: Regs, i: Inputs): Regs
    requires p.Valid() && InputsFit(p, i)
  {
    hide AbsorbWires, BlockAt, Padded, LengthWires, OutputState, Write;
    var h, q, d := i.held, c.(permStart := false), p.DataRounds();
    match c.st
    case Idle =>
      if i.start then
        Launch(c.(done := false, custlen := i.custLen, msglen := i.msgLen, custoff := 0, msgoff := 0),
               p.iv + Zeros(256), 2, if p.customized then CxLen else MsgDecide)
      else q
    case Permuting => if c.perm.validO then q.(s := c.perm.stateO, st := c.permRet) else q
    case CxLen => Launch(c, AbsorbWires(c.s, LengthWires(i.custLen)), d, CxDecide)
    case CxDecide => q.(st := if Rem(c.custlen, c.custoff) >= 8 then CxFull else CxPad)
    case CxFull =>
      Launch(c.(custoff := (c.custoff + 8) % 256), AbsorbWires(c.s, BlockAt(h.cust, 64, c.custoff, 64)), d, CxDecide)
    case CxPad =>
      Launch(c, AbsorbWires(c.s, Padded(BlockAt(h.cust, 64, c.custoff, 64), Rem(c.custlen, c.custoff))), d, MsgDecide)
    case MsgDecide => q.(st := if Rem(c.msglen, c.msgoff) >= 8 then MsgFull else MsgPad)
    case MsgFull =>
      Launch(c.(msgoff := (c.msgoff + 8) % 256), AbsorbWires(c.s, BlockAt(h.msg, 64, c.msgoff, 64)), d, MsgDecide)
    case MsgPad =>
      Launch(c, AbsorbWires(c.s, Padded(BlockAt(h.msg, 64, c.msgoff, 64), Rem(c.msglen, c.msgoff))), 2,
             OutputState(p, 0))
    case Output(k) =>
      var e := q.(digest := Write(c.digest, 64 * k, c.s[..64]));
      if k >= p.outWords then q.(st := Idle)
      else if k == p.outWords - 1 then e.(done := true, st := Idle)
      else Launch(e, c.s, d, OutputState(p, k + 1))
  }

  function Next(p: Params, c: Regs, i: Inputs): Regs
    requires p.Valid() && InputsFit(p, i)
  {
    Control(p, c, i).(perm := Clocked(p.R, Port(c)))
  }

  // The clocked module and the permutation core it instantiates.
  class Core {
    const p: Params
    const perm: Perm.Core
    var s: State
    var custlen: nat
    var custoff: nat
    var msglen: nat
    var msgoff: nat
    var st: Phase
    var permRet: Phase
    var permRounds: nat
    var permStart: bool
    var digest: Bits
    var done: bool

    ghost predicate Wired()
    {
      p.Valid() && perm.R == p.R
    }

    function Registers(): Regs
      reads this, perm
    {
      Regs(s, custlen, custoff, msglen, msgoff, st, permRet, permRounds, permStart, digest, done, perm.Registers())
    }

    constructor (p: Params)
      requires p.Valid()
      ensures this.p == p && Wired() && fresh(perm)
      ensures Resting(p, Registers()) && !done
    {
      this.p := p;
      perm := new Perm.Core(p.R);
      st, permRet, permRounds, permStart := Idle, Idle, 2, false;
      s, digest, done := Zeros(320), Zeros(64 * p.outWords), false;
      custlen, custoff, msglen, msgoff := 0, 0, 0, 0;
    }

    // One edge: the controller's registers first, then the permutation core,
    // which samples the controller's old outputs.
    method Step(i: Inputs)
      requires Wired() && InputsFit(p, i)
      modifies this, perm
      ensures Registers() == Next(p, old(Registers()), i)
    {
      hide Control, Perm.Next;
      var sampled := PermutationPort.Inputs(permStart, permRounds, s);
      match st {
        case Idle => Accept(i);
        case Permuting => Return(i);
        case CxLen => AbsorbLength(i);
        case CxDecide => Decide(i);
        case CxFull => AbsorbCustomization(i);
        case CxPad => AbsorbCustomization(i);
        case MsgDecide => Decide(i);
        case MsgFull => AbsorbMessage(i);
        case MsgPad => AbsorbMessage(i);
        case Output(k) => Emit(i);
      }
      perm.Step(sampled);
    }

    method StartPermutation(t: State, rounds: nat, ret: Phase)
      modifies this
      ensures Registers() == Launch(old(Registers()), t, rounds, ret)
    {
      s, permRounds, permRet, permStart, st := t, rounds, ret, true, Permuting;
    }

    method LatchJob(i: Inputs)
      modifies this
      ensures Registers() == old(Registers()).(done := false, custlen := i.custLen, msglen := i.msgLen,
                                               custoff := 0, msgoff := 0)
    {
      done, custlen, msglen, custoff, msgoff := false, i.custLen, i.msgLen, 0, 0;
    }

    method Accept(i: Inputs)
      requires Wired() && InputsFit(p, i) && st == Idle
      modifies this
      ensures Registers() == Control(p, old(Registers()), i)
    {
      hide AbsorbWires, BlockAt, Padded, LengthWires, OutputState, Write, Clocked, Rem;
      if i.start {
        LatchJob(i);
        StartPermutation(p.iv + Zeros(256), 2, if p.customized then CxLen else MsgDecide);
      } else {
        permStart := false;
      }
    }

    method Return(i: Inputs)
      requires Wired() && InputsFit(p, i) && st == Permuting
      modifies this
      ensures Registers() == Control(p, old(Registers()), i)
    {
      hide AbsorbWires, BlockAt, Padded, LengthWires, OutputState, Write, Clocked, Rem;
      permStart := false;
      if perm.validO {
        s, st := perm.stateO, permRet;
      }
    }

    method AbsorbLength(i: Inputs)
      requires Wired() && InputsFit(p, i) && st == CxLen
      modifies this
      ensures Registers() == Control(p, old(Registers()), i)
    {
      hide AbsorbWires, BlockAt, Padded, LengthWires, OutputState, Write, Clocked, Rem;
      StartPermutation(AbsorbWires(s, LengthWires(i.custLen)), p.DataRounds(), CxDecide);
    }

    method Decide(i: Inputs)
      requires Wired() && InputsFit(p, i) && (st == CxDecide || st == MsgDecide)
      modifies this
      ensures Registers() == Control(p, old(Registers()), i)
    {
      hide AbsorbWires, BlockAt, Padded, LengthWires, OutputState, Write, Clocked, Rem;
      permStart := false;
      if st == CxDecide {
        st := if Rem(custlen, custoff) >= 8 then CxFull else CxPad;
      } else {
        st := if Rem(msglen, msgoff) >= 8 then MsgFull else MsgPad;
      }
    }

    method AbsorbCustomization(i: Inputs)
      requires Wired() && InputsFit(p, i) && (st == CxFull || st == CxPad)
      modifies this
      ensures Registers() == Control(p, old(Registers()), i)
    {
      hide AbsorbWires, BlockAt, Padded, LengthWires, OutputState, Write, Clocked, Rem;
      var block := BlockAt(i.held.cust, 64, custoff, 64);
      if st == CxFull {
        custoff := (custoff + 8) % 256;
        StartPermutation(AbsorbWires(s, block), p.DataRounds(), CxDecide);
      } else {
        StartPermutation(AbsorbWires(s, Padded(block, Rem(custlen, custoff))), p.DataRounds(), MsgDecide);
      }
    }

    method AbsorbMessage(i: Inputs)
      requires Wired() && InputsFit(p, i) && (st == MsgFull || st == MsgPad)
      modifies this
      ensures Registers() == Control(p, old(Registers()), i)
    {
      hide AbsorbWires, BlockAt, Padded, LengthWires, OutputState, Write, Clocked, Rem;
      var block := BlockAt(i.held.msg, 64, msgoff, 64);
      if st == MsgFull {
        msgoff := (msgoff + 8) % 256;
        StartPermutation(AbsorbWires(s, block), p.DataRounds(), MsgDecide);
      } else {
        StartPermutation(AbsorbWires(s, Padded(block, Rem(msglen, msgoff))), 2, OutputState(p, 0));
      }
    }

    method Emit(i: Inputs)
      requires Wired() && InputsFit(p, i) && st.Output?
      modifies this
      ensures Registers() == Control(p, old(Registers()), i)
    {
      hide AbsorbWires, BlockAt, Padded, LengthWires, OutputState, Write, Clocked, Rem;
      var k := st.i;
      if k >= p.outWords {
        permStart, st := false, Idle;
      } else {
        digest := Write(digest, 64 * k, s[..64]);
        if k == p.outWords - 1 {
          permStart, done, st := false, true, Idle;
        } else {
          StartPermutation(s, p.DataRounds(), OutputState(p, k + 1));
        }
      }
    }
  }

  // ------------------------------------------------------------ correctness

  predicate Resting(p: Params, c: Regs)
  {
    c.st == Idle && Quiet(Port(c)) && |c.digest| == 64 * p.outWords
  }

  function At(c: Regs): Phase
  {
    if c.st == Permuting then c.permRet else c.st
  }

  function Sees(c: Regs): State
    requires c.st == Permuting ==> InFlight(Port(c))
  {
    if c.st == Permuting then Returned(Port(c)) else c.s
  }

  // States that a permutation returns to.
  predicate Returns(at: Phase)
  {
    at.CxLen? || at.CxDecide? || at.MsgDecide? || at.Output?
  }

  // At work, with every output word having a state of its own.
  predicate Busy(p: Params, c: Regs): (busy: bool)
    ensures busy && c.st == Permuting ==> InFlight(Port(c))
  {
    && p.Valid() && p.outWords <= p.MaxWords() && |c.digest| == 64 * p.outWords && !c.done
    && c.custoff <= c.custlen <= p.custMax && c.custlen < 256
    && c.msgoff <= c.msglen <= p.msgMax && c.msglen < 256
    && !At(c).Idle? && !At(c).Permuting?
    && (if c.st == Permuting then InFlight(Port(c)) && Returns(c.permRet) else Quiet(Port(c)))
    && (At(c).CxLen? || At(c).CxDecide? || At(c).CxFull? || At(c).CxPad? ==> p.customized && c.msgoff == 0)
    && (At(c).CxLen? ==> c.custoff == 0)
    && (c.st == CxFull ==> c.custlen - c.custoff >= 8)
    && (c.st == CxPad ==> c.custlen - c.custoff < 8)
    && (c.st == MsgFull ==> c.msglen - c.msgoff >= 8)
    && (c.st == MsgPad ==> c.msglen - c.msgoff < 8)
    && (At(c).Output? ==> At(c).i < p.outWords)
  }

  // What the registers mean: the control state that follows, the sponge state
  // it will see, the strings still to absorb and the output so far.
  datatype View = View(at: Phase, s: State, cust: Bits, text: Bits, sofar: Bits)

  function ViewOf(p: Params, c: Regs, h: Held): View
    requires Busy(p, c) && HeldFits(p, h)
  {
    View(At(c), Sees(c), h.cust[8 * c.custoff..8 * c.custlen], h.msg[8 * c.msgoff..8 * c.msglen],
         c.digest[..if At(c).Output? then 64 * At(c).i else 0])
  }

  function FromMessage(p: Params, s: State, text: Bits): Bits
    requires p.Valid()
  {
    Squeeze(Absorb(s, text, 64, p.inner, 12), 64 * p.outWords, p.inner)
  }

  function FromCust(p: Params, s: State, cust: Bits, text: Bits): Bits
    requires p.Valid()
  {
    FromMessage(p, Absorb(s, cust, 64, p.inner, p.inner), text)
  }

  // What is still to be computed; `length` is the length word.
  function ResultFrom(p: Params, v: View, length: Word): Bits
    requires p.Valid()
  {
    match v.at
    case CxLen => FromCust(p, Permute(XorAt(v.s, 0, length), p.inner), v.cust, v.text)
    case CxDecide => FromCust(p, v.s, v.cust, v.text)
    case CxFull => FromCust(p, v.s, v.cust, v.text)
    case CxPad => FromCust(p, v.s, v.cust, v.text)
    case Output(k) => if k < p.outWords then v.sofar + Squeeze(v.s, 64 * (p.outWords - k), p.inner) else v.sofar
    case _ => FromMessage(p, v.s, v.text)
  }

  // Edges from output state k on.
  function OutLeft(p: Params, k: nat): (n: nat)
    requires p.Valid()
    ensures n > 0
    decreases p.outWords - k, p
  {
    if k + 1 >= p.outWords then 1 else 1 + Dwell(p.R, p.inner) + OutLeft(p, k + 1)
  }

  function MsgLeft(p: Params, rem: nat): (n: nat)
    requires p.Valid()
    ensures n > 1
    decreases rem, p
  {
    if rem >= 64 then 2 + Dwell(p.R, p.inner) + MsgLeft(p, rem - 64) else 2 + Dwell(p.R, 12) + OutLeft(p, 0)
  }

  function CustLeft(p: Params, rem: nat, msg: nat): (n: nat)
    requires p.Valid()
    ensures n > 1
    decreases rem, p
  {
    if rem >= 64 then 2 + Dwell(p.R, p.inner) + CustLeft(p, rem - 64, msg)
      else 2 + Dwell(p.R, p.inner) + MsgLeft(p, msg)
  }

  // Edges from a control state to the one that raises done_o.
  function LeftFrom(p: Params, v: View): (n: nat)
    requires p.Valid()
    ensures n > 0
  {
    match v.at
    case CxLen => 1 + Dwell(p.R, p.inner) + CustLeft(p, |v.cust|, |v.text|)
    case CxDecide => CustLeft(p, |v.cust|, |v.text|)
    case CxFull => CustLeft(p, |v.cust|, |v.text|) - 1
    case CxPad => CustLeft(p, |v.cust|, |v.text|) - 1
    case MsgDecide => MsgLeft(p, |v.text|)
    case MsgFull => MsgLeft(p, |v.text|) - 1
    case MsgPad => MsgLeft(p, |v.text|) - 1
    case Output(k) => OutLeft(p, k)
    case _ => 1
  }

  function PermLeft(p: Params, c: Regs): nat
    requires p.Valid()
  {
    if c.st == Permuting then EdgesLeft(p.R, Port(c)) else 0
  }

  function Left(p: Params, c: Regs, h: Held): nat
    requires Busy(p, c) && HeldFits(p, h)
  {
    PermLeft(p, c) + LeftFrom(p, ViewOf(p, c, h))
  }

  function Outcome(p: Params, c: Regs, h: Held, length: Word): Bits
    requires Busy(p, c) && HeldFits(p, h)
  {
    ResultFrom(p, ViewOf(p, c, h), length)
  }

  // ------------------------------------------------------------- one edge

  predicate Kept(p: Params, c: Regs, c': Regs)
  {
    && Busy(p, c') && c'.msglen == c.msglen && c'.custlen == c.custlen
    && (At(c').CxLen? ==> At(c).CxLen? && PermLeft(p, c') + 1 == PermLeft(p, c))
  }

  predicate LastOutput(p: Params, c: Regs)
  {
    c.st.Output? && c.st.i + 1 == p.outWords
  }

  // Each edge keeps the outcome and uses up one of the edges left; the last
  // edge delivers it.
  predicate Progress(p: Params, c: Regs, c': Regs, h: Held, length: Word)
    requires Busy(p, c) && HeldFits(p, h)
  {
    if LastOutput(p, c)
    then Left(p, c, h) == 1 && Resting(p, c') && c'.done && c'.digest == Outcome(p, c, h, length)
    else
      && Kept(p, c, c')
      && Outcome(p, c', h, length) == Outcome(p, c, h, length)
      && Left(p, c', h) == Left(p, c, h) - 1
  }

  // The view after the control state of u has done its work.
  function After(p: Params, u: View, length: Word): View
    requires p.Valid()
  {
    match u.at
    case CxLen => u.(at := CxDecide, s := Permute(XorAt(u.s, 0, length), p.inner))
    case CxDecide => u.(at := if |u.cust| >= 64 then CxFull else CxPad)
    case CxFull =>
      if |u.cust| < 64 then u
      else u.(at := CxDecide, s := Permute(XorAt(u.s, 0, u.cust[..64]), p.inner), cust := u.cust[64..])
    case CxPad =>
      if |u.cust| >= 64 then u
      else u.(at := MsgDecide, s := Permute(XorAt(u.s, 0, Pad(u.cust, 64)), p.inner))
    case MsgDecide => u.(at := if |u.text| >= 64 then MsgFull else MsgPad)
    case MsgFull =>
      if |u.text| < 64 then u
      else u.(at := MsgDecide, s := Permute(XorAt(u.s, 0, u.text[..64]), p.inner), text := u.text[64..])
    case MsgPad =>
      if |u.text| >= 64 then u
      else u.(at := Output(0), s := Permute(XorAt(u.s, 0, Pad(u.text, 64)), 12))
    case Output(k) => u.(at := Output(k + 1), s := Permute(u.s, p.inner), sofar := u.sofar + u.s[..64])
    case _ => u
  }

  // The edges that the permutation takes after that work.
  function Pause(p: Params, at: Phase): nat
    requires p.Valid()
  {
    match at
    case CxDecide => 0
    case MsgDecide => 0
    case MsgPad => Dwell(p.R, 12)
    case _ => Dwell(p.R, p.inner)
  }

  // The registers after an edge mean v, with `dwell` edges of permuting first.
  predicate Goes(p: Params, c: Regs, c': Regs, h: Held, v: View, dwell: nat)
    requires HeldFits(p, h)
  {
    Kept(p, c, c') && ViewOf(p, c', h) == v && PermLeft(p, c') == dwell
  }

  predicate Works(p: Params, c: Regs, i: Inputs, length: Word)
    requires Busy(p, c) && InputsFit(p, i)
  {
    Goes(p, c, Next(p, c, i), i.held, After(p, ViewOf(p, c, i.held), length), Pause(p, c.st))
  }

  // The work and the pause compute what is still to be computed, one edge nearer
  // the end.
  predicate Continues(p: Params, u: View, length: Word)
    requires p.Valid()
  {
    var v := After(p, u, length);
    && ResultFrom(p, v, length) == ResultFrom(p, u, length)
    && Pause(p, u.at) + LeftFrom(p, v) == LeftFrom(p, u) - 1
  }

  lemma StepProgresses(p: Params, c: Regs, i: Inputs, length: Word)
    requires Busy(p, c) && InputsFit(p, i) && c.st != Permuting && !LastOutput(p, c)
    requires Works(p, c, i, length) && Continues(p, ViewOf(p, c, i.held), length)
    ensures Progress(p, c, Next(p, c, i), i.held, length)
  {
    hide Next, Sees, After, Pause, ResultFrom, LeftFrom, Resting;
  }

  lemma PermRests(p: Params, c: Regs)
    requires Quiet(Port(c))
    ensures Clocked(p.R, Port(c)) == c.perm
  {
    Rests(p.R, Port(c));
  }

  lemma PermutingStep(p: Params, c: Regs, i: Inputs)
    requires Busy(p, c) && InputsFit(p, i) && c.st == Permuting
    ensures PermLeft(p, c) > 0 && Goes(p, c, Next(p, c, i), i.held, ViewOf(p, c, i.held), PermLeft(p, c) - 1)
  {
    hide Returned, EdgesLeft, Clocked;
    if c.perm.validO {
      Taken(p, c);
    } else {
      Waits(p.R, Port(c));
    }
  }

  lemma Taken(p: Params, c: Regs)
    requires p.Valid() && InFlight(Port(c)) && c.perm.validO
    ensures Returned(Port(c)) == c.perm.stateO && EdgesLeft(p.R, Port(c)) == 1
    ensures !c.permStart && Quiet(Port(c).(perm := Clocked(p.R, Port(c))))
  {
    hide Clocked;
    Ends(p.R, Port(c));
  }

  lemma AbsorbedByWires(s: State, block: Bits)
    requires |block| == 64
    ensures AbsorbWires(s, block) == XorAt(s, 0, block)
  {
    AbsorbedByXor(s, block);
  }

  lemma FullWires(s: State, data: Bits, off: nat, len: nat)
    requires off <= len < 256 && 8 * len <= |data| && len - off >= 8
    ensures var text := data[8 * off..8 * len];
            && AbsorbWires(s, BlockAt(data, 64, off, 64)) == XorAt(s, 0, text[..64])
            && (off + 8) % 256 == off + 8 && text[64..] == data[8 * (off + 8)..8 * len]
  {
    hide AbsorbWires, BlockAt, XorAt;
    FullBlock(data, 64, off, 64);
    AbsorbedByWires(s, BlockAt(data, 64, off, 64));
    SliceOfSlice(data, 8 * off, 8 * len, 64);
  }

  lemma PadWires(s: State, data: Bits, off: nat, len: nat)
    requires off <= len < 256 && 8 * len <= |data| && len - off < 8
    ensures AbsorbWires(s, Padded(BlockAt(data, 64, off, 64), Rem(len, off)))
            == XorAt(s, 0, Pad(data[8 * off..8 * len], 64))
  {
    hide AbsorbWires, BlockAt, XorAt, Pad, Padded, Rem;
    var block := BlockAt(data, 64, off, 64);
    RemIsRest(len, off);
    PartialBlock(data, 64, off, len, 64);
    PaddedIsPad(block, len - off);
    AbsorbedByWires(s, Padded(block, len - off));
  }

  // While the codes last, each output word has a state of its own.
  lemma OwnState(p: Params, k: nat)
    requires k < p.MaxWords()
    ensures OutputState(p, k) == Output(k)
  {
  }

  lemma CxLenWorks(p: Params, c: Regs, i: Inputs, length: Word)
    requires Busy(p, c) && InputsFit(p, i) && c.st == CxLen && length == LengthWires(i.custLen)
    ensures Works(p, c, i, length)
  {
    hide Permute, XorAt, Pad, AbsorbWires, BlockAt, Padded, Rem, LengthWires, Write, Clocked, Dwell, OutputState;
    PermRests(p, c);
    AbsorbedByWires(c.s, length);
  }

  lemma CxDecideWorks(p: Params, c: Regs, i: Inputs, length: Word)
    requires Busy(p, c) && InputsFit(p, i) && c.st == CxDecide
    ensures Works(p, c, i, length)
  {
    hide Permute, XorAt, Pad, AbsorbWires, BlockAt, Padded, Rem, LengthWires, Write, Clocked, Dwell, OutputState;
    PermRests(p, c);
    RemIsRest(c.custlen, c.custoff);
  }

  lemma CxFullWorks(p: Params, c: Regs, i: Inputs, length: Word)
    requires Busy(p, c) && InputsFit(p, i) && c.st == CxFull
    ensures Works(p, c, i, length)
  {
    hide Permute, XorAt, Pad, AbsorbWires, BlockAt, Padded, Rem, LengthWires, Write, Clocked, Dwell, OutputState;
    PermRests(p, c);
    FullWires(c.s, i.held.cust, c.custoff, c.custlen);
  }

  lemma CxPadWorks(p: Params, c: Regs, i: Inputs, length: Word)
    requires Busy(p, c) && InputsFit(p, i) && c.st == CxPad
    ensures Works(p, c, i, length)
  {
    hide Permute, XorAt, Pad, AbsorbWires, BlockAt, Padded, Rem, LengthWires, Write, Clocked, Dwell, OutputState;
    PermRests(p, c);
    PadWires(c.s, i.held.cust, c.custoff, c.custlen);
  }

  lemma MsgDecideWorks(p: Params, c: Regs, i: Inputs, length: Word)
    requires Busy(p, c) && InputsFit(p, i) && c.st == MsgDecide
    ensures Works(p, c, i, length)
  {
    hide Permute, XorAt, Pad, AbsorbWires, BlockAt, Padded, Rem, LengthWires, Write, Clocked, Dwell, OutputState;
    PermRests(p, c);
    RemIsRest(c.msglen, c.msgoff);
  }

  lemma MsgFullWorks(p: Params, c: Regs, i: Inputs, length: Word)
    requires Busy(p, c) && InputsFit(p, i) && c.st == MsgFull
    ensures Works(p, c, i, length)
  {
    hide Permute, XorAt, Pad, AbsorbWires, BlockAt, Padded, Rem, LengthWires, Write, Clocked, Dwell, OutputState;
    PermRests(p, c);
    FullWires(c.s, i.held.msg, c.msgoff, c.msglen);
  }

  lemma MsgPadWorks(p: Params, c: Regs, i: Inputs, length: Word)
    requires Busy(p, c) && InputsFit(p, i) && c.st == MsgPad
    ensures Works(p, c, i, length)
  {
    hide Permute, XorAt, Pad, AbsorbWires, BlockAt, Padded, Rem, LengthWires, Write, Clocked, Dwell, OutputState;
    PermRests(p, c);
    PadWires(c.s, i.held.msg, c.msgoff, c.msglen);
    OwnState(p, 0);
    assert c.digest[..0] == [];
  }

  lemma OutputWorks(p: Params, c: Regs, i: Inputs, length: Word)
    requires Busy(p, c) && InputsFit(p, i) && c.st.Output? && !LastOutput(p, c)
    ensures Works(p, c, i, length)
  {
    hide Permute, XorAt, Pad, AbsorbWires, BlockAt, Padded, Rem, LengthWires, Write, Clocked, Dwell, OutputState;
    PermRests(p, c);
    OwnState(p, c.st.i + 1);
    WrittenPrefix(c.digest, 64 * c.st.i, c.s[..64], 64);
    assert c.s[..64][..64] == c.s[..64];
  }

  lemma LastOutputStep(p: Params, c: Regs, i: Inputs, length: Word)
    requires Busy(p, c) && InputsFit(p, i) && LastOutput(p, c)
    ensures Progress(p, c, Next(p, c, i), i.held, length)
  {
    hide Permute, XorAt, Pad, AbsorbWires, BlockAt, Padded, Rem, LengthWires, Write, Clocked, Dwell, OutputState;
    PermRests(p, c);
    WrittenPrefix(c.digest, 64 * c.st.i, c.s[..64], 64);
    assert c.s[..64][..64] == c.s[..64];
    var d := Write(c.digest, 64 * c.st.i, c.s[..64]);
    assert d[..64 * c.st.i + 64] == d;
  }

  // ------------------------------------------------- what an edge means

  lemma CustContinues(p: Params, u: View, length: Word)
    requires p.Valid()
    requires u.at == CxLen || u.at == CxDecide || (u.at == CxFull && |u.cust| >= 64) || (u.at == CxPad && |u.cust| < 64)
    ensures Continues(p, u, length)
  {
    hide Permute, XorAt, Pad, Dwell, FromMessage, MsgLeft;
  }

  lemma MsgContinues(p: Params, u: View, length: Word)
    requires p.Valid() && u.sofar == []
    requires u.at == MsgDecide || (u.at == MsgFull && |u.text| >= 64) || (u.at == MsgPad && |u.text| < 64)
    ensures Continues(p, u, length)
  {
    hide Permute, XorAt, Pad, Dwell, Squeeze, OutLeft;
  }

  lemma OutputContinues(p: Params, u: View, length: Word)
    requires p.Valid() && u.at.Output? && u.at.i + 1 < p.outWords
    ensures Continues(p, u, length)
  {
    hide Permute, Dwell;
    var n := 64 * (p.outWords - u.at.i);
    assert u.sofar + (u.s[..64] + Squeeze(Permute(u.s, p.inner), n - 64, p.inner))
        == (u.sofar + u.s[..64]) + Squeeze(Permute(u.s, p.inner), n - 64, p.inner);
  }

  lemma ControlWorks(p: Params, c: Regs, i: Inputs, length: Word)
    requires Busy(p, c) && InputsFit(p, i) && c.st != Permuting && !LastOutput(p, c)
    requires c.st == CxLen ==> length == LengthWires(i.custLen)
    ensures Works(p, c, i, length)
  {
    hide Works;
    match c.st {
      case CxLen => CxLenWorks(p, c, i, length);
      case CxDecide => CxDecideWorks(p, c, i, length);
      case CxFull => CxFullWorks(p, c, i, length);
      case CxPad => CxPadWorks(p, c, i, length);
      case MsgDecide => MsgDecideWorks(p, c, i, length);
      case MsgFull => MsgFullWorks(p, c, i, length);
      case MsgPad => MsgPadWorks(p, c, i, length);
      case Output(_) => OutputWorks(p, c, i, length);
    }
  }

  lemma ControlContinues(p: Params, c: Regs, h: Held, length: Word)
    requires Busy(p, c) && HeldFits(p, h) && c.st != Permuting && !LastOutput(p, c)
    ensures Continues(p, ViewOf(p, c, h), length)
  {
    hide Continues, Sees;
    var u := ViewOf(p, c, h);
    match c.st {
      case MsgDecide => MsgContinues(p, u, length);
      case MsgFull => MsgContinues(p, u, length);
      case MsgPad => MsgContinues(p, u, length);
      case Output(_) => OutputContinues(p, u, length);
      case _ => CustContinues(p, u, length);
    }
  }

  // `length` is the word that the length input gives in the edge sampling it.
  lemma BusyStep(p: Params, c: Regs, i: Inputs, length: Word)
    requires Busy(p, c) && InputsFit(p, i)
    requires c.st == CxLen ==> length == LengthWires(i.custLen)
    ensures Progress(p, c, Next(p, c, i), i.held, length)
  {
    hide Works, Continues, Next, LengthWires, ResultFrom, LeftFrom, ViewOf, Kept, PermLeft;
    if c.st == Permuting {
      PermutingStep(p, c, i);
    } else if LastOutput(p, c) {
      LastOutputStep(p, c, i, length);
    } else {
      ControlWorks(p, c, i, length);
      ControlContinues(p, c, i.held, length);
      StepProgresses(p, c, i, length);
    }
  }

  // ------------------------------------------------------------ whole runs

  function Run(p: Params, c: Regs, ins: seq<Inputs>): Regs
    requires p.Valid() && forall k :: 0 <= k < |ins| ==> InputsFit(p, ins[k])
    decreases |ins|
  {
    if |ins| == 0 then c else Run(p, Next(p, c, ins[0]), ins[1..])
  }

  predicate JobFits(p: Params, i: Inputs)
  {
    InputsFit(p, i) && i.custLen <= p.custMax && i.msgLen <= p.msgMax
  }

  // The sponge on the bytes that the lengths select; `lengthBytes` is the number
  // that the length word announces.
  function Expected(p: Params, i: Inputs, lengthBytes: nat): Bits
    requires p.Valid() && JobFits(p, i)
  {
    var msg := i.held.msg[..8 * i.msgLen];
    if p.customized
    then Cxof(p.iv, LengthWord(lengthBytes), i.held.cust[..8 * i.custLen], msg, 64 * p.outWords)
    else HashXof(p.iv, msg, 64 * p.outWords, p.inner)
  }

  // The edge that samples the customization length for the length word, with the
  // start as edge 0.
  function LengthEdge(p: Params): (n: nat)
    requires p.Valid()
    ensures n > 0
  {
    1 + Dwell(p.R, 12)
  }

  // Start to done, both edges included.
  function CoreCycles(p: Params, custLen: nat, msgLen: nat): (n: nat)
    requires p.Valid()
    ensures p.customized ==> n > LengthEdge(p)
  {
    var d := Dwell(p.R, p.inner);
    1 + Dwell(p.R, 12)
    + (if p.customized then 1 + d + Total(custLen / 8, d + 2) + d + 2 else 0)
    + Total(msgLen / 8, d + 2) + 2 + Dwell(p.R, 12)
    + Total(p.outWords - 1, d + 1) + 1
  }

  lemma LengthBits(n: nat)
    requires n < 256
    ensures LengthWires(n) == LengthWord(n)
  {
    hide ByteBits, Value, FromInt, Pow2;
    var w := Zeros(3) + (ByteBits(n) + Zeros(53));
    ValueConcat(Zeros(3), ByteBits(n) + Zeros(53));
    ValueConcat(ByteBits(n), Zeros(53));
    ValueZeros(3);
    ValueZeros(53);
    ByteRoundTrip(n);
    SmallPowers();
    FromIntValue(w);
  }

  lemma StartStep(p: Params, c: Regs, i: Inputs)
    requires p.Valid() && Resting(p, c) && JobFits(p, i) && i.start && p.outWords <= p.MaxWords()
    ensures var c' := Next(p, c, i);
            && Busy(p, c')
            && ViewOf(p, c', i.held) == View(if p.customized then CxLen else MsgDecide, SpongeInit(p.iv),
                                             i.held.cust[..8 * i.custLen], i.held.msg[..8 * i.msgLen], [])
            && PermLeft(p, c') == Dwell(p.R, 12)
  {
    hide Permute, RoundsFrom, Perm.Stages, StepsTo;
  }

  lemma StartedResult(p: Params, i: Inputs, lengthBytes: nat)
    requires p.Valid() && JobFits(p, i) && lengthBytes < 256
    ensures var v := View(if p.customized then CxLen else MsgDecide, SpongeInit(p.iv),
                          i.held.cust[..8 * i.custLen], i.held.msg[..8 * i.msgLen], []);
            && ResultFrom(p, v, LengthWires(lengthBytes)) == Expected(p, i, lengthBytes)
            && 1 + Dwell(p.R, 12) + LeftFrom(p, v) == CoreCycles(p, i.custLen, i.msgLen)
  {
    hide Permute, Absorb, Squeeze, SpongeInit, LengthWires, Dwell, MsgLeft, CustLeft, OutLeft, LengthWord;
    LengthBits(lengthBytes);
    MsgLeftClosed(p, i.msgLen);
    CustLeftClosed(p, i.custLen, 8 * i.msgLen);
    OutLeftClosed(p, 0);
  }

  lemma Quotient(len: nat)
    ensures len < 8 ==> len / 8 == 0
    ensures len >= 8 ==> len / 8 == 1 + (len - 8) / 8
  {
  }

  lemma {:induction false} OutLeftClosed(p: Params, k: nat)
    requires p.Valid() && k < p.outWords
    ensures OutLeft(p, k) == Total(p.outWords - 1 - k, Dwell(p.R, p.inner) + 1) + 1
    decreases p.outWords - k
  {
    hide Dwell;
    if k + 1 < p.outWords {
      OutLeftClosed(p, k + 1);
    }
  }

  lemma {:induction false} MsgLeftClosed(p: Params, len: nat)
    requires p.Valid()
    ensures MsgLeft(p, 8 * len) == Total(len / 8, Dwell(p.R, p.inner) + 2) + 2 + Dwell(p.R, 12) + OutLeft(p, 0)
    decreases len
  {
    hide Dwell, OutLeft;
    Quotient(len);
    if len >= 8 {
      MsgLeftClosed(p, len - 8);
    }
  }

  lemma {:induction false} CustLeftClosed(p: Params, len: nat, msg: nat)
    requires p.Valid()
    ensures CustLeft(p, 8 * len, msg)
            == Total(len / 8, Dwell(p.R, p.inner) + 2) + 2 + Dwell(p.R, p.inner) + MsgLeft(p, msg)
    decreases len
  {
    hide Dwell, MsgLeft;
    Quotient(len);
    if len >= 8 {
      CustLeftClosed(p, len - 8, msg);
    }
  }

  // The length word, if it is still to be sampled, comes from the edge after the
  // permutation in flight.
  lemma {:induction false} RunBusy(p: Params, c: Regs, ins: seq<Inputs>, h: Held, length: Word)
    requires Busy(p, c) && HeldFits(p, h) && |ins| <= Left(p, c, h)
    requires forall k :: 0 <= k < |ins| ==> InputsFit(p, ins[k]) && ins[k].held == h
    requires At(c).CxLen? && PermLeft(p, c) < |ins| ==> length == LengthWires(ins[PermLeft(p, c)].custLen)
    ensures var last := Run(p, c, ins);
            if |ins| == Left(p, c, h) then Resting(p, last) && last.done && last.digest == Outcome(p, c, h, length)
            else Busy(p, last)
    decreases |ins|
  {
    hide Next, Outcome, ViewOf, Resting, LengthWires, EdgesLeft;
    if |ins| > 0 {
      BusyStep(p, c, ins[0], length);
      var c' := Next(p, c, ins[0]);
      if LastOutput(p, c) {
        assert Run(p, c, ins) == c';
      } else {
        RunBusy(p, c', ins[1..], h, length);
      }
    }
  }

  // From rest, with the buffers held, a start reaches done after exactly
  // CoreCycles edges, and not before, with the sponge's output, provided that
  // every output word has a state code of its own: at most 11, or 23 for the
  // customized core. The lengths of the start select the bytes; the length word
  // announces what the length input says at LengthEdge.
  lemma CoreComputesSponge(p: Params, c: Regs, ins: seq<Inputs>)
    requires p.Valid() && Resting(p, c) && p.outWords <= p.MaxWords()
    requires |ins| > 0 && ins[0].start && JobFits(p, ins[0])
    requires forall k :: 0 <= k < |ins| ==> InputsFit(p, ins[k]) && ins[k].held == ins[0].held
    requires |ins| <= CoreCycles(p, ins[0].custLen, ins[0].msgLen)
    ensures var i := ins[0];
            var last := Run(p, c, ins);
            if |ins| == CoreCycles(p, i.custLen, i.msgLen)
            then Resting(p, last) && last.done
                 && last.digest == Expected(p, i, if p.customized then ins[LengthEdge(p)].custLen else i.custLen)
            else !last.done && last.st != Idle
  {
    hide Next, ResultFrom, LeftFrom, Dwell, CoreCycles, Resting, Expected, SpongeInit, LengthWires, EdgesLeft;
    var n := if p.customized && LengthEdge(p) < |ins| then ins[LengthEdge(p)].custLen else ins[0].custLen;
    StartStep(p, c, ins[0]);
    StartedResult(p, ins[0], n);
    RunBusy(p, Next(p, c, ins[0]), ins[1..], ins[0].held, LengthWires(n));
  }

  // ------------------------------------------- the length is sampled twice

  lemma LengthWiresInjective(a: nat, b: nat)
    requires a < 256 && b < 256
    ensures LengthWires(a) == LengthWires(b) <==> a == b
  {
    hide ByteBits;
    assert LengthWires(a)[3..11] == ByteBits(a);
    assert LengthWires(b)[3..11] == ByteBits(b);
    ByteRoundTrip(a);
    ByteRoundTrip(b);
  }

  lemma XorAtInjective(s: State, a: Word, b: Word)
    ensures XorAt(s, 0, a) == XorAt(s, 0, b) <==> a == b
  {
    if XorAt(s, 0, a) == XorAt(s, 0, b) {
      forall k | 0 <= k < 64 ensures a[k] == b[k] {
        assert XorAt(s, 0, a)[k] == XorAt(s, 0, b)[k];
      }
    }
  }

  // The edge after the first permutation absorbs the length word of the standard
  // if and only if the length input still says what the start latched.
  lemma LengthSampledAgain(p: Params, c: Regs, i: Inputs)
    requires Busy(p, c) && InputsFit(p, i) && c.st == CxLen
    ensures Busy(p, Next(p, c, i))
    ensures Sees(Next(p, c, i)) == Permute(XorAt(c.s, 0, LengthWord(c.custlen)), 12) <==> i.custLen == c.custlen
  {
    hide Permute, XorAt, Next, LengthWires, LengthWord, Clocked, EdgesLeft;
    var sampled, latched := LengthWires(i.custLen), LengthWires(c.custlen);
    CxLenWorks(p, c, i, sampled);
    LengthBits(c.custlen);
    LengthWiresInjective(i.custLen, c.custlen);
    XorAtInjective(c.s, sampled, latched);
    if Permute(XorAt(c.s, 0, sampled), 12) == Permute(XorAt(c.s, 0, latched), 12) {
      PermutationInjective(XorAt(c.s, 0, sampled), XorAt(c.s, 0, latched), 12);
    }
  }

  // A permutation in flight ends in the control state it returns to.
  lemma {:induction false} RunPermuting(p: Params, c: Regs, ins: seq<Inputs>)
    requires Busy(p, c) && |ins| == PermLeft(p, c)
    requires forall k :: 0 <= k < |ins| ==> InputsFit(p, ins[k])
    ensures var last := Run(p, c, ins);
            Busy(p, last) && last.st == At(c) && last.s == Sees(c) && last.custlen == c.custlen
    decreases |ins|
  {
    hide Next, EdgesLeft;
    if |ins| > 0 {
      PermutingStep(p, c, ins[0]);
      RunPermuting(p, Next(p, c, ins[0]), ins[1..]);
    }
  }

  lemma {:induction false} RunConcat(p: Params, c: Regs, ins: seq<Inputs>, i: Inputs)
    requires p.Valid() && InputsFit(p, i) && forall k :: 0 <= k < |ins| ==> InputsFit(p, ins[k])
    ensures Run(p, c, ins + [i]) == Next(p, Run(p, c, ins), i)
    decreases |ins|
  {
    hide Next;
    if |ins| == 0 {
      assert ins + [i] == [i];
    } else {
      assert (ins + [i])[1..] == ins[1..] + [i];
      RunConcat(p, Next(p, c, ins[0]), ins[1..], i);
    }
  }

  lemma RunToLength(p: Params, c: Regs, ins: seq<Inputs>)
    requires p.Valid() && p.customized && Resting(p, c) && p.outWords <= p.MaxWords()
    requires |ins| == LengthEdge(p) && ins[0].start && JobFits(p, ins[0])
    requires forall k :: 0 <= k < |ins| ==> InputsFit(p, ins[k])
    ensures var c' := Run(p, c, ins);
            Busy(p, c') && c'.st == CxLen && c'.s == SpongeInit(p.iv) && c'.custlen == ins[0].custLen
  {
    hide Next, SpongeInit, Dwell, EdgesLeft, Sees;
    var c1 := Next(p, c, ins[0]);
    StartStep(p, c, ins[0]);
    Latched(p, c, ins[0]);
    RunPermuting(p, c1, ins[1..]);
  }

  lemma Latched(p: Params, c: Regs, i: Inputs)
    requires p.Valid() && c.st == Idle && InputsFit(p, i) && i.start
    ensures Next(p, c, i).custlen == i.custLen
  {
    hide Clocked;
  }

  // So a customized job is on the standard's path after LengthEdge if and only if
  // the length input then still says what it said at the start.
  lemma LengthMustBeHeld(p: Params, c: Regs, ins: seq<Inputs>)
    requires p.Valid() && p.customized && Resting(p, c) && p.outWords <= p.MaxWords()
    requires |ins| == LengthEdge(p) + 1 && ins[0].start && JobFits(p, ins[0])
    requires forall k :: 0 <= k < |ins| ==> InputsFit(p, ins[k])
    ensures Busy(p, Run(p, c, ins))
    ensures Sees(Run(p, c, ins)) == Permute(XorAt(SpongeInit(p.iv), 0, LengthWord(ins[0].custLen)), 12)
            <==> ins[LengthEdge(p)].custLen == ins[0].custLen
  {
    hide Next, Busy, Resting, Permute, XorAt, LengthWord, SpongeInit, Sees, LengthEdge;
    var n := LengthEdge(p);
    RunToLength(p, c, ins[..n]);
    RunConcat(p, c, ins[..n], ins[n]);
    assert ins[..n] + [ins[n]] == ins;
    LengthSampledAgain(p, Run(p, c, ins[..n]), ins[n]);
  }

  // ------------------------------------------------- too many output words

  // No output state beyond the last code is ever entered.
  predicate BelowCodes(p: Params, c: Regs)
  {
    && (c.st.Output? ==> c.st.i < p.MaxWords())
    && (c.st.Permuting? && c.permRet.Output? ==> c.permRet.i < p.MaxWords())
  }

  lemma CodesWrap(p: Params, k: nat)
    ensures OutputState(p, k).Output? ==> OutputState(p, k).i < p.MaxWords()
  {
    var n := (p.FirstOutput() + k) % p.Codes();
    if p.customized {
      assert n < 32;
    } else {
      assert n < 16;
    }
  }

  // With more output words than codes the last one is unreachable: whatever the
  // inputs do, done is never raised.
  lemma {:induction false} TooManyWordsNeverDone(p: Params, c: Regs, ins: seq<Inputs>)
    requires p.Valid() && p.outWords > p.MaxWords()
    requires BelowCodes(p, c) && !c.done
    requires forall k :: 0 <= k < |ins| ==> InputsFit(p, ins[k])
    ensures !Run(p, c, ins).done
    decreases |ins|
  {
    hide Next, BelowCodes;
    if |ins| > 0 {
      StaysBelow(p, c, ins[0]);
      TooManyWordsNeverDone(p, Next(p, c, ins[0]), ins[1..]);
    }
  }

  lemma StaysBelow(p: Params, c: Regs, i: Inputs)
    requires p.Valid() && p.outWords > p.MaxWords() && BelowCodes(p, c) && InputsFit(p, i)
    requires !c.done || (c.st == Idle && i.start)
    ensures BelowCodes(p, Next(p, c, i)) && !Next(p, c, i).done
  {
    hide AbsorbWires, BlockAt, Padded, LengthWires, OutputState, Write, Clocked, Rem;
    CodesWrap(p, 0);
    if c.st.Output? {
      CodesWrap(p, c.st.i + 1);
    }
  }

  // From rest, a job that is given its time gets done if and only if every output
  // word has a state code of its own.
  // With four state bits that is 11 words, with five 23.
  lemma DoneExactlyWithinCodes(p: Params, c: Regs, ins: seq<Inputs>)
    requires p.Valid() && Resting(p, c)
    requires |ins| > 0 && ins[0].start && JobFits(p, ins[0])
    requires forall k :: 0 <= k < |ins| ==> InputsFit(p, ins[k]) && ins[k].held == ins[0].held
    requires |ins| == CoreCycles(p, ins[0].custLen, ins[0].msgLen)
    ensures Run(p, c, ins).done <==> p.outWords <= if p.customized then 23 else 11
  {
    hide Next, CoreCycles;
    if p.outWords <= p.MaxWords() {
      CoreComputesSponge(p, c, ins);
    } else {
      StaysBelow(p, c, ins[0]);
      TooManyWordsNeverDone(p, Next(p, c, ins[0]), ins[1..]);
    }
  }
}
