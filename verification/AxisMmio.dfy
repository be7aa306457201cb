// The word-by-word peripheral: bus writes become stream beats, and the beats
// that the engine sends are captured for later bus reads.
module AxisMmio {
  import opened BitVectors
  import opened Counters
  import opened Wires
  import opened AxisEngine
  import StreamBeat
  import SlinkMmio
  import AeadCore

  // The control registers that both peripherals have, and the data registers.
  datatype Ctl = Ctl(base: SlinkMmio.Ctl, outLen: nat, dataIn: Word32, outbuf: Bits, outWpos: nat, outRpos: nat)

  datatype Peripheral = Peripheral(ctl: Ctl, eng: AxisEngine.Regs)

  datatype Access = Access(sel: bool, we: bool, addr: nat, wdata: Word32)

  predicate CtlSized(c: Ctl)
  {
    SlinkMmio.SetupSized(c.base.setup) && |c.outbuf| == 256 && c.outWpos < 256 && c.outRpos < 256
  }

  predicate Fits(s: Peripheral)
  {
    CtlSized(s.ctl) && AxisEngine.Sized(s.eng)
  }

  // A write of DATA_IN_CTRL is a stream beat.
  predicate WritesBeat(i: Access)
  {
    i.sel && i.we && i.addr == 0x44
  }

  function BeatOf(c: Ctl, i: Access): StreamBeat.Beat
  {
    StreamBeat.Beat(c.dataIn, i.wdata[8..12], i.wdata[3], i.wdata[0], WritesBeat(i))
  }

  // The access completes in this cycle.
  predicate Ready(s: Peripheral, i: Access)
  {
    WritesBeat(i) ==> ReadyOut(s.eng)
  }

  function EngineInputs(c: Ctl, i: Access): (e: AxisEngine.Inputs)
    requires CtlSized(c)
    ensures AxisEngine.InputsFit(e)
  {
    AxisEngine.Inputs(c.base.startPulse, SlinkMmio.JobOf(c.base), BeatOf(c, i), true)
  }

  // Every beat sent is taken at once.
  function Capture(c: Ctl, e: AxisEngine.Regs): (c': Ctl)
    requires CtlSized(c) && AxisEngine.Sized(e)
    ensures CtlSized(c')
  {
    hide Store, Sent;
    if e.st.Tx?
    then c.(outbuf := Store(c.outbuf, c.outWpos, Sent(e)), outWpos := (c.outWpos + Kept(Sent(e).keep)) % 256)
    else c
  }

  function BusWrite(c: Ctl, addr: nat, w: Word32): (c': Ctl)
    requires CtlSized(c)
    ensures CtlSized(c')
  {
    hide SlinkMmio.BusWrite, SlinkMmio.LowByte;
    if addr == 0x00 && (w[0] || w[8]) then c.(base := SlinkMmio.BusWrite(c.base, addr, w), outWpos := 0, outRpos := 0)
    else if addr == 0x18 then c.(outLen := SlinkMmio.LowByte(w))
    else if addr == 0x40 then c.(dataIn := w)
    else c.(base := SlinkMmio.BusWrite(c.base, addr, w))
  }

  // Reading DATA_OUT moves on to the next word.
  function BusAccess(c: Ctl, i: Access): (c': Ctl)
    requires CtlSized(c)
    ensures CtlSized(c')
  {
    hide BusWrite;
    if i.we then BusWrite(c, i.addr, i.wdata)
    else if i.addr == 0x48 then c.(outRpos := (c.outRpos + 4) % 256)
    else c
  }

  function Control(s: Peripheral, i: Access): (c: Ctl)
    requires Fits(s)
    ensures CtlSized(c)
  {
    hide SlinkMmio.Bookkeep, BusAccess;
    var c := Capture(s.ctl.(base := SlinkMmio.Bookkeep(s.ctl.base, s.eng)), s.eng);
    if i.sel && Ready(s, i) then BusAccess(c, i) else c
  }

  function Clock(R: nat, s: Peripheral, i: Access): (s': Peripheral)
    requires 0 < R <= 12 && Fits(s)
    ensures Fits(s')
  {
    hide Control, AxisEngine.Next;
    Peripheral(Control(s, i), AxisEngine.Next(R, s.eng, EngineInputs(s.ctl, i)))
  }

  // ---------------------------------------------------------------- reads

  // AEAD128, the cycle counter and the stream data plane.
  const CAPABILITIES: Word32 := [true] + Zeros(20) + [true, true] + Zeros(9)

  function Read(s: Peripheral, addr: nat): Word32
    requires Fits(s)
  {
    var b := s.ctl.base;
    if addr == 0x04 then [b.busy, b.done, b.tagValid, b.error, ReadyOut(s.eng), b.done] + Zeros(26)
    else if addr == 0x0C then CAPABILITIES
    else if addr == 0x18 then SlinkMmio.Low(s.ctl.outLen)
    else if addr == 0x48 then Select(s.ctl.outbuf, 8 * s.ctl.outRpos, 32)
    else if addr == 0x4C then
      var rem := Rem(b.setup.txtlen, s.ctl.outRpos);
      [rem <= 4, true] + Zeros(6) + StreamBeat.KeepMask(rem) + Zeros(20)
    else SlinkMmio.Read(b, addr)
  }

  // The read-only registers: bits 0, 21 and 22, and version 1 of the interface.
  lemma ConstantsRead(s: Peripheral)
    requires Fits(s)
    ensures Value(Read(s, 0x7C)) == 1
    ensures forall k :: 0 <= k < 32 ==> (Read(s, 0x0C)[k] <==> k == 0 || k == 21 || k == 22)
  {
    hide Value, SlinkMmio.Read;
    SlinkMmio.ConstantsRead(s.ctl.base);
  }

  // A write other than to CONTROL is read back from its own address, where there
  // is anything to read back, and changes what no other address reads, except
  // that the text length frames the output.
  lemma WriteReadsBack(s: Peripheral, addr: nat, w: Word32, other: nat)
    requires Fits(s) && addr != 0x00 && (addr == 0x14 ==> other != 0x4C)
    ensures Read(s.(ctl := BusWrite(s.ctl, addr, w)), other)
         == if addr == other && (SlinkMmio.ReadsBack(addr) || addr == 0x18) then SlinkMmio.Stored(addr, w)
            else Read(s, other)
  {
    hide SlinkMmio.Read, SlinkMmio.LowByte, SlinkMmio.Low, SlinkMmio.WriteSetup, Select, StreamBeat.KeepMask;
    SlinkMmio.LowReadsBack(w);
    SlinkMmio.WriteReadsBack(s.ctl.base, addr, w, other);
    if addr != 0x14 {
      FramingKept(s, addr, w);
    }
  }

  lemma FramingKept(s: Peripheral, addr: nat, w: Word32)
    requires Fits(s) && addr != 0x00 && addr != 0x14
    ensures BusWrite(s.ctl, addr, w).base.setup.txtlen == s.ctl.base.setup.txtlen
  {
    hide SlinkMmio.LowByte, SlinkMmio.SetWord;
  }

  // STATUS says what the registers hold, whether the engine takes a beat, and
  // whether there is output.
  lemma StatusBits(s: Peripheral)
    requires Fits(s)
    ensures var w := Read(s, 0x04);
            && w[0] == s.ctl.base.busy && w[1] == s.ctl.base.done && w[2] == s.ctl.base.tagValid
            && w[3] == s.ctl.base.error && w[4] == ReadyOut(s.eng) && w[5] == s.ctl.base.done && w[6..] == Zeros(26)
  {
  }

  // DATA_OUT_CTRL marks the bytes of the next word that belong to the result, and
  // the last word.
  lemma OutputFraming(s: Peripheral)
    requires Fits(s) && s.ctl.outRpos <= s.ctl.base.setup.txtlen
    ensures var w := Read(s, 0x4C);
            && w[1] && (w[0] <==> s.ctl.outRpos + 4 >= s.ctl.base.setup.txtlen)
            && forall k :: 0 <= k < 4 ==> (w[8..12][k] <==> s.ctl.outRpos + k < s.ctl.base.setup.txtlen)
  {
    RemIsRest(s.ctl.base.setup.txtlen, s.ctl.outRpos);
  }

  class Registers {
    const R: nat
    const eng: AxisEngine.Engine
    var base: SlinkMmio.Ctl
    var outLen: nat
    var dataIn: Word32
    var outbuf: Bits
    var outWpos: nat
    var outRpos: nat

    function Controls(): Ctl
      reads this
    {
      Ctl(base, outLen, dataIn, outbuf, outWpos, outRpos)
    }

    function State(): Peripheral
      reads this, eng, eng.core, eng.core.perm
    {
      Peripheral(Controls(), eng.Registers())
    }

    ghost predicate Wired()
      reads this, eng, eng.core, eng.core.perm
      ensures Wired() ==> 0 < R <= 12 && Fits(State())
    {
      0 < R <= 12 && eng.R == R && eng.Wired() && CtlSized(Controls())
    }

    constructor (R: nat)
      requires 0 < R <= 12
      ensures this.R == R && Wired() && fresh(eng) && fresh(eng.core) && fresh(eng.core.perm)
      ensures Settled(R, State())
    {
      hide CoreParams;
      this.R := R;
      eng := new AxisEngine.Engine(R);
      base := SlinkMmio.Ctl(SlinkMmio.Setup(Zeros(3), Zeros(128), Zeros(128), Zeros(128), 0, 0), Zeros(128),
                            false, false, false, false, false, 0, 0, 0, false, false);
      outLen, dataIn, outbuf, outWpos, outRpos := 0, Zeros(32), Zeros(256), 0, 0;
    }

    // One clock: the engine on the old registers, and the registers on the old
    // engine, the bus winning over the engine.
    method Step(i: Access)
      requires Wired()
      modifies this, eng, eng.core, eng.core.perm
      ensures Wired() && State() == Clock(R, old(State()), i)
    {
      hide SlinkMmio.Bookkeep, BusWrite, Capture, AxisEngine.Next, CoreParams;
      var sampled, ready := EngineInputs(Controls(), i), Ready(State(), i);
      Keep();
      if i.sel && ready {
        Serve(i);
      }
      eng.Step(sampled);
    }

    method Serve(i: Access)
      requires CtlSized(Controls())
      modifies this
      ensures Controls() == BusAccess(old(Controls()), i)
    {
      hide BusWrite;
      if i.we {
        Write(i.addr, i.wdata);
      } else if i.addr == 0x48 {
        outRpos := (outRpos + 4) % 256;
      }
    }

    method Keep()
      requires Wired()
      modifies this
      ensures Controls() == Capture(old(Controls()).(base := SlinkMmio.Bookkeep(old(base), eng.Registers())),
                                    eng.Registers())
      ensures CtlSized(Controls())
    {
      hide SlinkMmio.Bookkeep, Store, Sent, CoreParams;
      base := SlinkMmio.Bookkeep(base, eng.Registers());
      if eng.st.Tx? {
        var beat := Sent(eng.Registers());
        outbuf := Store(outbuf, outWpos, beat);
        outWpos := (outWpos + Kept(beat.keep)) % 256;
      }
    }

    method Write(addr: nat, w: Word32)
      requires CtlSized(Controls())
      modifies this
      ensures Controls() == BusWrite(old(Controls()), addr, w)
    {
      hide SlinkMmio.BusWrite, SlinkMmio.LowByte;
      if addr == 0x00 && (w[0] || w[8]) {
        base := SlinkMmio.BusWrite(base, addr, w);
        outWpos, outRpos := 0, 0;
      } else if addr == 0x18 {
        outLen := SlinkMmio.LowByte(w);
      } else if addr == 0x40 {
        dataIn := w;
      } else {
        base := SlinkMmio.BusWrite(base, addr, w);
      }
    }
  }

  // Nothing is going on inside the engine.
  ghost predicate EngineRests(R: nat, e: AxisEngine.Regs)
  {
    && 0 < R <= 12 && AxisEngine.Sized(e) && e.st.Idle? && !e.coreStart && !e.doneO
    && AeadCore.Resting(CoreParams(R), e.core)
  }

  // No job is under way.
  ghost predicate Settled(R: nat, s: Peripheral)
    ensures Settled(R, s) ==> 0 < R <= 12 && Fits(s)
  {
    && Fits(s) && |s.ctl.base.tag| == 128 && EngineRests(R, s.eng)
    && !s.ctl.base.startPulse && !s.ctl.base.counting && !s.ctl.base.busy
  }
}
