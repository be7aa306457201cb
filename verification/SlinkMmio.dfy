// The stream-native peripheral: control registers on the bus, payload on the
// word stream, shim and engine behind them.
module SlinkMmio {
  import opened BitVectors
  import opened Wires
  import opened Bytes
  import opened AxisEngine
  import opened SlinkPlane
  import SlinkShim
  import AeadCore

  const CYCLE_WRAP: nat := 0x1_0000_0000_0000_0000

  // The registers that the driver fills before a job.
  datatype Setup = Setup(mode: Bits, key: Bits, nonce: Bits, tagIn: Bits, adlen: nat, txtlen: nat)

  datatype Ctl = Ctl(setup: Setup, tag: Bits, decrypt: bool, busy: bool, done: bool, tagValid: bool, error: bool,
                     errCode: nat, cycRun: nat, cycLat: nat, counting: bool, startPulse: bool)

  datatype Peripheral = Peripheral(ctl: Ctl, plane: Plane)

  // One bus access and the state of both streams.
  datatype Cycle = Cycle(sel: bool, we: bool, addr: nat, wdata: Word32, dat: Word32, val: bool, rxReady: bool)

  predicate Sized(r: Peripheral)
  {
    AxisEngine.Sized(r.plane.eng) && SetupSized(r.ctl.setup)
  }

  predicate SetupSized(u: Setup)
  {
    |u.mode| == 3 && |u.key| == 128 && |u.nonce| == 128 && |u.tagIn| == 128 && u.adlen < 256 && u.txtlen < 256
  }

  // The low byte of a register write.
  function LowByte(w: Word32): (n: nat)
    ensures n < 256
  {
    ByteOf(w[0..8])
  }

  // Word k of a 128-bit register replaced.
  function SetWord(reg: Bits, k: nat, w: Word32): (r: Bits)
    requires |reg| == 128 && k < 4
    ensures |r| == 128
  {
    Splice(reg, 32 * k, w)
  }

  predicate WritesStart(i: Cycle)
  {
    i.sel && i.we && i.addr == 0x00 && i.wdata[0]
  }

  predicate WritesClear(i: Cycle)
  {
    i.sel && i.we && i.addr == 0x00 && i.wdata[8]
  }

  // The CONTROL register: CLEAR is bit 8, START bit 0 and DECRYPT bit 1.
  function Command(c: Ctl, w: Word32): Ctl
  {
    var d := if w[8] then c.(busy := false, done := false, tagValid := false, error := false, errCode := 0,
                             counting := false)
             else c;
    if w[0]
    then d.(decrypt := w[1], startPulse := true, busy := true, done := false, tagValid := false, error := false,
            errCode := 0, cycRun := 0, counting := true)
    else d
  }

  // Word registers base, base + 4, base + 8 and base + 12.
  predicate InBank(addr: nat, base: nat)
  {
    addr == base || addr == base + 4 || addr == base + 8 || addr == base + 12
  }

  function WordIndex(addr: nat, base: nat): (k: nat)
    requires InBank(addr, base)
    ensures k < 4
  {
    if addr == base then 0 else if addr == base + 4 then 1 else if addr == base + 8 then 2 else 3
  }

  function WriteSetup(u: Setup, addr: nat, w: Word32): (u': Setup)
    requires SetupSized(u)
    ensures SetupSized(u')
  {
    hide SetWord, LowByte;
    if addr == 0x08 then u.(mode := w[0..3])
    else if addr == 0x10 then u.(adlen := LowByte(w))
    else if addr == 0x14 then u.(txtlen := LowByte(w))
    else if InBank(addr, 0x20) then u.(key := SetWord(u.key, WordIndex(addr, 0x20), w))
    else if InBank(addr, 0x30) then u.(nonce := SetWord(u.nonce, WordIndex(addr, 0x30), w))
    else if InBank(addr, 0x60) then u.(tagIn := SetWord(u.tagIn, WordIndex(addr, 0x60), w))
    else u
  }

  // One of the 128-bit registers replaced as a whole.
  function WithBank(u: Setup, bank: nat, v: Bits): Setup
  {
    if bank == 0x20 then u.(key := v) else if bank == 0x30 then u.(nonce := v) else u.(tagIn := v)
  }

  function BankOf(u: Setup, bank: nat): Bits
  {
    if bank == 0x20 then u.key else if bank == 0x30 then u.nonce else u.tagIn
  }

  // Word k of a bank replaced.
  function WithWord(u: Setup, bank: nat, k: nat, w: Word32): (u': Setup)
    requires SetupSized(u) && k < 4
    ensures SetupSized(u')
  {
    WithBank(u, bank, SetWord(BankOf(u, bank), k, w))
  }

  // A length register takes the low byte of what is written.
  lemma LengthWritten(n: nat)
    requires n < 256
    ensures LowByte(FromInt(n, 32)) == n
  {
    hide Value, FromInt;
    var w := ByteBits(n) + Zeros(24);
    ByteRoundTrip(n);
    ValueConcat(ByteBits(n), Zeros(24));
    ValueZeros(24);
    FromIntValue(w);
    assert w[0..8] == ByteBits(n);
  }

  // A bus write, taking effect last so that it wins over the engine.
  function BusWrite(c: Ctl, addr: nat, w: Word32): (c': Ctl)
    requires SetupSized(c.setup)
    ensures SetupSized(c'.setup)
  {
    if addr == 0x00 then Command(c, w) else c.(setup := WriteSetup(c.setup, addr, w))
  }

  // A write to a bank replaces one word of its register.
  lemma BankWritten(c: Ctl, bank: nat, k: nat, w: Word32)
    requires SetupSized(c.setup) && (bank == 0x20 || bank == 0x30 || bank == 0x60) && k < 4
    ensures BusWrite(c, bank + 4 * k, w) == c.(setup := WithWord(c.setup, bank, k, w))
  {
    hide SetWord, LowByte, Command;
  }

  lemma SetupWritten(c: Ctl, n: nat)
    requires SetupSized(c.setup) && n < 256
    ensures BusWrite(c, 0x08, Zeros(32)) == c.(setup := c.setup.(mode := Zeros(3)))
    ensures BusWrite(c, 0x10, FromInt(n, 32)) == c.(setup := c.setup.(adlen := n))
    ensures BusWrite(c, 0x14, FromInt(n, 32)) == c.(setup := c.setup.(txtlen := n))
  {
    hide FromInt, LowByte, Command;
    LengthWritten(n);
  }

  // Pulses, the cycle counter and the capture of a finished job.
  function Bookkeep(c: Ctl, e: AxisEngine.Regs): (c': Ctl)
    ensures c'.setup == c.setup
  {
    var d := c.(startPulse := false, cycRun := if c.counting then (c.cycRun + 1) % CYCLE_WRAP else c.cycRun);
    if !e.doneO then d
    else
      var bad := c.decrypt && !e.validO;
      d.(done := true, tag := e.tagO, busy := false, counting := false, cycLat := c.cycRun,
         error := if bad then true else c.error, errCode := if bad then 4 else 0, tagValid := !bad)
  }

  // The job that the registers of the moment describe.
  function JobOf(c: Ctl): (j: Job)
    ensures SetupSized(c.setup) ==> AxisEngine.JobFits(j)
  {
    Job(c.decrypt, c.setup.key, c.setup.nonce, c.setup.adlen, c.setup.txtlen, c.setup.tagIn)
  }

  // What the plane sees on an edge.
  function EdgeOf(c: Ctl, i: Cycle): Edge
  {
    Edge(c.startPulse, JobOf(c), i.dat, i.val, i.rxReady)
  }

  function Clock(R: nat, r: Peripheral, i: Cycle): (r': Peripheral)
    requires 0 < R <= 12 && Sized(r)
    ensures Sized(r')
  {
    hide SlinkPlane.Next, BusWrite;
    var d := Bookkeep(r.ctl, r.plane.eng);
    Peripheral(if i.sel && i.we then BusWrite(d, i.addr, i.wdata) else d, SlinkPlane.Next(R, r.plane, EdgeOf(r.ctl, i)))
  }

  // ---------------------------------------------------------------- reads

  // A byte in the low bits of a word.
  function Low(n: nat): Word32
  {
    ByteBits(n) + Zeros(24)
  }

  function WordOf(reg: Bits, k: nat): Word32
  {
    Select(reg, 32 * k, 32)
  }

  // AEAD128, the cycle counter, the stream data plane and its SLINK form.
  const CAPABILITIES: Word32 := [true] + Zeros(20) + [true, true, true] + Zeros(8)

  const ABI_VERSION: nat := 1

  function Read(c: Ctl, addr: nat): Word32
    requires SetupSized(c.setup)
  {
    if addr == 0x04 then [c.busy, c.done, c.tagValid, c.error] + Zeros(28)
    else if addr == 0x08 then c.setup.mode + Zeros(29)
    else if addr == 0x0C then CAPABILITIES
    else if addr == 0x10 then Low(c.setup.adlen)
    else if addr == 0x14 then Low(c.setup.txtlen)
    else if InBank(addr, 0x20) then WordOf(c.setup.key, WordIndex(addr, 0x20))
    else if InBank(addr, 0x30) then WordOf(c.setup.nonce, WordIndex(addr, 0x30))
    else if InBank(addr, 0x60) then WordOf(c.tag, WordIndex(addr, 0x60))
    else if addr == 0x70 then FromInt(c.cycLat, 64)[..32]
    else if addr == 0x74 then FromInt(c.cycLat, 64)[32..]
    else if addr == 0x78 then Low(c.errCode)
    else if addr == 0x7C then Low(ABI_VERSION)
    else Zeros(32)
  }

  class Registers {
    const R: nat
    const shim: SlinkShim.Shim
    const eng: AxisEngine.Engine
    var setup: Setup
    var tag: Bits
    var decrypt: bool
    var busy: bool
    var done: bool
    var tagValid: bool
    var error: bool
    var errCode: nat
    var cycRun: nat
    var cycLat: nat
    var counting: bool
    var startPulse: bool

    function Control(): Ctl
      reads this
    {
      Ctl(setup, tag, decrypt, busy, done, tagValid, error, errCode, cycRun, cycLat, counting, startPulse)
    }

    function State(): Peripheral
      reads this, shim, eng, eng.core, eng.core.perm
    {
      Peripheral(Control(), Plane(shim.Registers(), eng.Registers()))
    }

    ghost predicate Wired()
      reads this, eng, eng.core, eng.core.perm
    {
      0 < R <= 12 && eng.R == R && eng.Wired() && SetupSized(setup)
    }

    constructor (R: nat)
      requires 0 < R <= 12
      ensures this.R == R && Wired() && Rested(R, State())
      ensures fresh(shim) && fresh(eng) && fresh(eng.core) && fresh(eng.core.perm)
    {
      hide CoreParams;
      this.R := R;
      shim := new SlinkShim.Shim();
      eng := new AxisEngine.Engine(R);
      setup := Setup(Zeros(3), Zeros(128), Zeros(128), Zeros(128), 0, 0);
      tag, decrypt, busy, done, tagValid, error, errCode := Zeros(128), false, false, false, false, false, 0;
      cycRun, cycLat, counting, startPulse := 0, 0, false, false;
    }

    // One clock: shim and engine step on the old registers and on each other's
    // old outputs, while the control registers do their bookkeeping.
    method Step(i: Cycle)
      requires Wired()
      modifies this, shim, eng, eng.core, eng.core.perm
      ensures Wired() && State() == Clock(R, old(State()), i)
    {
      hide Bookkeep, BusWrite, SlinkShim.Next, AxisEngine.Next, CoreParams, SlinkShim.Drive;
      var plane, edge := Plane(shim.Registers(), eng.Registers()), EdgeOf(Control(), i);
      assert |SlinkShim.Drive(plane.shim, ShimInputs(plane, edge)).data| == 32 by { SlinkDataIs(plane, edge); }
      StepControl(i);
      StepPlane(edge);
    }

    method StepPlane(edge: Edge)
      requires 0 < R <= 12 && eng.R == R && eng.Wired() && AxisEngine.JobFits(edge.job)
      modifies shim, eng, eng.core, eng.core.perm
      ensures eng.Wired()
      ensures Plane(shim.Registers(), eng.Registers())
              == SlinkPlane.Next(R, old(Plane(shim.Registers(), eng.Registers())), edge)
    {
      hide SlinkShim.Next, AxisEngine.Next, CoreParams, SlinkShim.Drive;
      var plane := Plane(shim.Registers(), eng.Registers());
      assert |SlinkShim.Drive(plane.shim, ShimInputs(plane, edge)).data| == 32 by { SlinkDataIs(plane, edge); }
      eng.Step(EngineInputs(plane, edge));
      shim.Step(ShimInputs(plane, edge));
    }

    method StepControl(i: Cycle)
      requires SetupSized(setup)
      modifies this
      ensures SetupSized(setup)
      ensures var d := Bookkeep(old(Control()), eng.Registers());
              Control() == if i.sel && i.we then BusWrite(d, i.addr, i.wdata) else d
    {
      hide Bookkeep, BusWrite;
      Keep();
      assert Control().setup == setup;
      if i.sel && i.we {
        Write(i.addr, i.wdata);
        assert Control().setup == setup;
      }
    }

    method Keep()
      modifies this
      ensures Control() == Bookkeep(old(Control()), eng.Registers())
    {
      var edges := cycRun;
      startPulse := false;
      if counting {
        cycRun := (cycRun + 1) % CYCLE_WRAP;
      }
      if eng.doneO {
        Finish(edges);
      }
    }

    method Finish(edges: nat)
      modifies this
      ensures var c, e := old(Control()), eng.Registers();
              Control() == c.(done := true, tag := e.tagO, busy := false, counting := false, cycLat := edges,
                              error := (c.decrypt && !e.validO) || c.error,
                              errCode := if c.decrypt && !e.validO then 4 else 0,
                              tagValid := !(c.decrypt && !e.validO))
    {
      Judge(decrypt && !eng.validO);
      done, tag, busy, counting, cycLat := true, eng.tagO, false, false, edges;
    }

    method Judge(bad: bool)
      modifies this
      ensures Control() == old(Control()).(error := bad || old(error), errCode := if bad then 4 else 0,
                                           tagValid := !bad)
    {
      if bad {
        error := true;
      }
      errCode, tagValid := if bad then 4 else 0, !bad;
    }

    method Write(addr: nat, w: Word32)
      requires SetupSized(setup)
      modifies this
      ensures Control() == BusWrite(old(Control()), addr, w)
    {
      hide WriteSetup;
      if addr == 0x00 {
        if w[8] {
          Clear();
          counting := false;
        }
        if w[0] {
          Clear();
          decrypt, startPulse, busy, cycRun, counting := w[1], true, true, 0, true;
        }
      } else {
        setup := WriteSetup(setup, addr, w);
      }
    }

    method Clear()
      modifies this
      ensures Control() == old(Control()).(busy := false, done := false, tagValid := false, error := false,
                                           errCode := 0)
    {
      busy, done, tagValid, error, errCode := false, false, false, false, 0;
    }
  }

  // ------------------------------------------------------------ invariant

  // The driver starts or clears only while the peripheral is not busy, and with
  // lengths that fit the buffers.
  predicate Polite(c: Ctl, i: Cycle)
  {
    && (WritesStart(i) ==> !c.busy && c.setup.adlen <= 32 && c.setup.txtlen <= 32)
    && (WritesClear(i) ==> !c.busy)
  }

  // A finished job as the registers show it.
  ghost predicate Reported(R: nat, c: Ctl, m: Seen)
    requires 0 < R <= 12
  {
    && JobSmall(m.job) && Taken(m.job, m.words) && AllSent(m)
    && c.tag == Expected(m.job, m.words).tag
    && c.tagValid == (m.job.decrypt ==> Expected(m.job, m.words).tag == m.job.tag)
    && c.error == !c.tagValid && c.errCode == (if c.error then 4 else 0)
    && m.edges == m.stalls + JobEdges(R, m.job) && c.cycLat == m.edges % CYCLE_WRAP
  }

  ghost predicate Inv(R: nat, r: Peripheral, m: Seen, ran: bool)
    ensures Inv(R, r, m, ran) ==> 0 < R <= 12 && Sized(r)
  {
    var c, e := r.ctl, r.plane.eng;
    && 0 < R <= 12 && Sized(r) && SlinkPlane.Inv(R, r.plane, m, ran)
    && (c.busy <==> c.startPulse || !e.st.Idle? || e.doneO)
    && (c.startPulse ==> e.st.Idle? && !e.doneO && c.setup.adlen <= 32 && c.setup.txtlen <= 32 && c.cycRun == 0)
    && (c.counting <==> c.busy)
    && (c.busy && !c.startPulse
        ==> c.decrypt == m.job.decrypt && c.cycRun == m.edges % CYCLE_WRAP && !c.error && c.errCode == 0)
    && (c.busy ==> !c.done && !c.error && c.errCode == 0)
    && (c.done ==> ran && Reported(R, c, m))
  }

  lemma CountedOn(a: nat)
    ensures (a % CYCLE_WRAP + 1) % CYCLE_WRAP == (a + 1) % CYCLE_WRAP
  {
  }

  // The part of the plane's invariant that the registers rely on.
  lemma PlaneFacts(R: nat, p: Plane, m: Seen, i: Edge, ran: bool)
    requires SlinkPlane.Inv(R, p, m, ran) && AxisEngine.JobFits(i.job)
    ensures p.eng.doneO ==> p.eng.st.Idle? && ran && Complete(R, p.eng, m)
    ensures !p.eng.st.Idle? ==> ran && Watch(p, m, i).edges == m.edges + 1 && Watch(p, m, i).job == m.job
    ensures p.eng.st.Idle? ==> Watch(p, m, i) == if i.start then Seen(i.job, [], [], 1, 0) else m
  {
    hide AeadCore.Resting, CoreParams, Complete, Receiving, Loaded, Sent, Expected, AeadCore.Busy, AeadCore.Delivered;
  }

  lemma EngineFacts(R: nat, p: Plane, i: Edge)
    requires 0 < R <= 12 && AxisEngine.Sized(p.eng) && AxisEngine.JobFits(i.job)
    ensures var e' := SlinkPlane.Next(R, p, i).eng;
            && e'.doneO == p.eng.st.Done?
            && (e'.st.Idle? <==> p.eng.st.Done? || (p.eng.st.Idle? && !i.start))
  {
    hide AeadCore.Next, CoreParams, Store, SlinkShim.Drive;
    assert |SlinkShim.Drive(p.shim, ShimInputs(p, i)).data| == 32 by { SlinkDataIs(p, i); }
  }

  lemma SlinkDataIs(p: Plane, i: Edge)
    ensures SlinkShim.Drive(p.shim, ShimInputs(p, i)).data == i.dat
  {
  }

  // An edge without a bus write.
  lemma QuietStep(R: nat, r: Peripheral, m: Seen, i: Cycle, ran: bool)
    requires Inv(R, r, m, ran)
    ensures var edge := EdgeOf(r.ctl, i);
            var d := Bookkeep(r.ctl, r.plane.eng);
            && Inv(R, Peripheral(d, SlinkPlane.Next(R, r.plane, edge)), Watch(r.plane, m, edge),
                   ran || r.ctl.startPulse)
            && !d.startPulse && (!r.ctl.busy ==> d == r.ctl)
  {
    hide SlinkPlane.Inv, SlinkPlane.Next, Watch, AllSent, Expected, JobEdges, Taken;
    var edge := EdgeOf(r.ctl, i);
    PlaneFacts(R, r.plane, m, edge, ran);
    EngineFacts(R, r.plane, edge);
    PlaneStep(R, r.plane, m, edge, ran);
    CountedOn(m.edges);
  }

  lemma WriteStep(R: nat, r: Peripheral, m: Seen, addr: nat, w: Word32, ran: bool)
    requires Inv(R, r, m, ran) && !r.ctl.startPulse
    requires addr == 0x00 && (w[0] || w[8]) ==> !r.ctl.busy
    requires addr == 0x00 && w[0] ==> r.ctl.setup.adlen <= 32 && r.ctl.setup.txtlen <= 32
    ensures Inv(R, r.(ctl := BusWrite(r.ctl, addr, w)), m, ran)
  {
    hide SlinkPlane.Inv, WriteSetup, Reported;
    if r.ctl.done {
      ReportedStays(R, r.ctl, m, addr, w);
    }
  }

  lemma ReportedStays(R: nat, c: Ctl, m: Seen, addr: nat, w: Word32)
    requires 0 < R <= 12 && Reported(R, c, m)
    requires SetupSized(c.setup)
    ensures !(addr == 0x00 && (w[0] || w[8])) ==> Reported(R, BusWrite(c, addr, w), m)
  {
    hide WriteSetup, Expected, AllSent, Taken, JobEdges;
  }

  // Every clock cycle, whatever a polite driver and the streams do, keeps the
  // invariant.
  lemma Step(R: nat, r: Peripheral, m: Seen, i: Cycle, ran: bool)
    requires Inv(R, r, m, ran) && Polite(r.ctl, i)
    ensures Inv(R, Clock(R, r, i), Watch(r.plane, m, EdgeOf(r.ctl, i)), ran || r.ctl.startPulse)
  {
    hide Inv, Bookkeep, BusWrite, SlinkPlane.Next, Watch;
    QuietStep(R, r, m, i, ran);
    var edge := EdgeOf(r.ctl, i);
    var d := Bookkeep(r.ctl, r.plane.eng);
    if i.sel && i.we {
      WriteStep(R, Peripheral(d, SlinkPlane.Next(R, r.plane, edge)), Watch(r.plane, m, edge), i.addr, i.wdata, ran
          || r.ctl.startPulse);
    }
  }

  // ------------------------------------------------------------ whole runs

  ghost predicate Rested(R: nat, r: Peripheral)
  {
    && 0 < R <= 12 && Sized(r) && AtRest(R, r.plane)
    && !r.ctl.busy && !r.ctl.startPulse && !r.ctl.counting && !r.ctl.done
  }

  ghost function Run(R: nat, r: Peripheral, m: Seen, cs: seq<Cycle>): (f: (Peripheral, Seen))
    requires 0 < R <= 12 && Sized(r)
    ensures Sized(f.0)
    decreases |cs|
  {
    if |cs| == 0 then (r, m) else Run(R, Clock(R, r, cs[0]), Watch(r.plane, m, EdgeOf(r.ctl, cs[0])), cs[1..])
  }

  ghost predicate PoliteRun(R: nat, r: Peripheral, cs: seq<Cycle>)
    requires 0 < R <= 12 && Sized(r)
    decreases |cs|
  {
    |cs| > 0 ==> Polite(r.ctl, cs[0]) && PoliteRun(R, Clock(R, r, cs[0]), cs[1..])
  }

  lemma {:induction false} RunKeepsInv(R: nat, r: Peripheral, m: Seen, cs: seq<Cycle>, ran: bool) returns (ran': bool)
    requires Inv(R, r, m, ran) && PoliteRun(R, r, cs)
    ensures Inv(R, Run(R, r, m, cs).0, Run(R, r, m, cs).1, ran')
    decreases |cs|
  {
    hide Inv, Clock, Watch;
    ran' := ran;
    if |cs| > 0 {
      Step(R, r, m, cs[0], ran);
      ran' := RunKeepsInv(R, Clock(R, r, cs[0]), Watch(r.plane, m, EdgeOf(r.ctl, cs[0])), cs[1..],
                          ran || r.ctl.startPulse);
    }
  }

  // From reset, under every polite driver and every behaviour of the two
  // streams: whenever DONE is set, the tag, the flags and the error code are
  // those of the functional model on the job's key, nonce and taken bytes, every
  // result byte has been sent, and the cycle counter reads the job's fixed cost
  // plus the cycles that the streams withheld.
  lemma PeripheralReportsAead(R: nat, r: Peripheral, m: Seen, cs: seq<Cycle>)
    requires Rested(R, r) && PoliteRun(R, r, cs)
    ensures var (r', m') := Run(R, r, m, cs);
            r'.ctl.done ==> !r'.ctl.busy && Reported(R, r'.ctl, m')
  {
    hide Reported, AeadCore.Resting, CoreParams, Complete, Receiving, Run, PoliteRun;
    var ran := RunKeepsInv(R, r, m, cs, false);
  }

  // ------------------------------------------------------------ progress

  // n cycles after the one that wrote START for job j, that cycle included.
  ghost predicate Awaits(R: nat, c: Ctl, m: Seen, j: Job, n: nat)
    requires 0 < R <= 12
  {
    if c.startPulse then n == 1 && JobOf(c) == j
    else
      && m.job == j
      && if c.busy then m.edges + 1 == n else c.done && n >= m.stalls + JobEdges(R, j) + 2
  }

  lemma AwaitStep(R: nat, r: Peripheral, m: Seen, i: Cycle, ran: bool, j: Job, n: nat)
    requires Inv(R, r, m, ran) && Awaits(R, r.ctl, m, j, n) && !WritesStart(i) && !WritesClear(i)
    ensures Awaits(R, Clock(R, r, i).ctl, Watch(r.plane, m, EdgeOf(r.ctl, i)), j, n + 1)
  {
    hide SlinkPlane.Inv, SlinkPlane.Next, Watch, AllSent, Result, Expected, JobEdges, Taken, WriteSetup;
    PlaneFacts(R, r.plane, m, EdgeOf(r.ctl, i), ran);
  }

  lemma {:induction false} AwaitRun(R: nat, r: Peripheral, m: Seen, cs: seq<Cycle>, ran: bool, j: Job, n: nat)
    returns (ran': bool)
    requires Inv(R, r, m, ran) && Awaits(R, r.ctl, m, j, n)
    requires forall k :: 0 <= k < |cs| ==> !WritesStart(cs[k]) && !WritesClear(cs[k])
    ensures var (r', m') := Run(R, r, m, cs);
            Inv(R, r', m', ran') && Awaits(R, r'.ctl, m', j, n + |cs|)
    decreases |cs|
  {
    hide Inv, Clock, Watch, Awaits, WritesStart, WritesClear;
    ran' := ran;
    if |cs| > 0 {
      assert Polite(r.ctl, cs[0]);
      Step(R, r, m, cs[0], ran);
      AwaitStep(R, r, m, cs[0], ran, j, n);
      ran' := AwaitRun(R, Clock(R, r, cs[0]), Watch(r.plane, m, EdgeOf(r.ctl, cs[0])), cs[1..], ran || r.ctl.startPulse,
                       j, n + 1);
    }
  }

  lemma StartAwaits(R: nat, r: Peripheral, m: Seen, i: Cycle, ran: bool)
    requires Inv(R, r, m, ran) && Polite(r.ctl, i) && WritesStart(i)
    ensures var c' := Clock(R, r, i).ctl; Awaits(R, c', Watch(r.plane, m, EdgeOf(r.ctl, i)), JobOf(c'), 1)
  {
    hide SlinkPlane.Inv, SlinkPlane.Next, Watch, Reported, WriteSetup;
  }

  // How the bounds at the end of a run tell whether DONE may be expected.
  lemma AwaitEnds(R: nat, r: Peripheral, m: Seen, ran: bool, j: Job, n: nat)
    requires Inv(R, r, m, ran) && Awaits(R, r.ctl, m, j, n) && n > 1
    ensures m.job == j && (r.ctl.done <==> n >= m.stalls + JobEdges(R, j) + 2)
    ensures r.ctl.busy <==> !r.ctl.done
    ensures r.ctl.done ==> Reported(R, r.ctl, m)
  {
    hide SlinkPlane.Inv, Reported, JobEdges, AllSent, Result, Expected, Taken;
    PlaneFacts(R, r.plane, m, EdgeOf(r.ctl, Cycle(false, false, 0, Zeros(32), Zeros(32), false, false)), ran);
    if !r.plane.eng.st.Idle? {
      BusyIsBounded(R, r.plane, m);
    }
  }

  // From every reachable state: after a polite driver's START, with CONTROL left
  // alone from then on, DONE is set exactly from the cycle on by which the cycles
  // exceed the ones that the streams withheld by the job's fixed cost, one cycle
  // for the write and one for the capture of the result; and it reports that job.
  lemma DoneOnTime(R: nat, r: Peripheral, m: Seen, cs: seq<Cycle>, ran: bool)
    requires Inv(R, r, m, ran) && |cs| > 1 && WritesStart(cs[0]) && Polite(r.ctl, cs[0])
    requires forall k :: 1 <= k < |cs| ==> !WritesStart(cs[k]) && !WritesClear(cs[k])
    ensures var (r', m') := Run(R, r, m, cs);
            && m'.job == JobOf(Clock(R, r, cs[0]).ctl)
            && (r'.ctl.done <==> |cs| >= m'.stalls + JobEdges(R, m'.job) + 2)
            && (r'.ctl.busy <==> !r'.ctl.done)
            && (r'.ctl.done ==> Reported(R, r'.ctl, m'))
  {
    hide Inv, Clock, Watch, Awaits, WritesStart, WritesClear, Reported, JobEdges;
    var r1, m1 := Clock(R, r, cs[0]), Watch(r.plane, m, EdgeOf(r.ctl, cs[0]));
    var j := JobOf(r1.ctl);
    Step(R, r, m, cs[0], ran);
    StartAwaits(R, r, m, cs[0], ran);
    var ran' := AwaitRun(R, r1, m1, cs[1..], ran || r.ctl.startPulse, j, 1);
    var (r', m') := Run(R, r, m, cs);
    AwaitEnds(R, r', m', ran', j, |cs|);
  }

  // -------------------------------------------------- what the bus delivers

  // The four tag registers read back the whole tag.
  lemma TagReadsBack(c: Ctl)
    requires SetupSized(c.setup) && |c.tag| == 128
    ensures Read(c, 0x60) + Read(c, 0x64) + Read(c, 0x68) + Read(c, 0x6C) == c.tag
  {
  }

  // The two cycle registers read back the whole counter.
  lemma CyclesReadBack(c: Ctl)
    requires SetupSized(c.setup) && c.cycLat < Pow2(64)
    ensures Value(Read(c, 0x70) + Read(c, 0x74)) == c.cycLat
  {
    hide Pow2, Value, FromInt;
    ValueFromInt(c.cycLat, 64);
    assert FromInt(c.cycLat, 64)[..32] + FromInt(c.cycLat, 64)[32..] == FromInt(c.cycLat, 64);
  }

  lemma LowValue(n: nat)
    requires n < 256
    ensures Value(Low(n)) == n
  {
    hide Value, ByteBits;
    ByteRoundTrip(n);
    ValueConcat(ByteBits(n), Zeros(24));
    ValueZeros(24);
  }

  lemma ErrorReadsBack(c: Ctl)
    requires SetupSized(c.setup) && c.errCode < 256
    ensures Value(Read(c, 0x78)) == c.errCode
  {
    hide Value, Low;
    LowValue(c.errCode);
  }

  // The read-only registers: bits 0, 21, 22 and 23, and version 1 of the interface.
  lemma ConstantsRead(c: Ctl)
    requires SetupSized(c.setup)
    ensures Value(Read(c, 0x7C)) == 1
    ensures forall k :: 0 <= k < 32 ==> (Read(c, 0x0C)[k] <==> k == 0 || k == 21 || k == 22 || k == 23)
  {
    hide Value, Low;
    LowValue(1);
  }

  // What a register that reads back keeps of a written word.
  function Stored(addr: nat, w: Word32): Word32
  {
    if addr == 0x08 then w[..3] + Zeros(29)
    else if addr == 0x10 || addr == 0x14 || addr == 0x18 then w[..8] + Zeros(24)
    else w
  }

  predicate ReadsBack(addr: nat)
  {
    addr == 0x08 || addr == 0x10 || addr == 0x14 || InBank(addr, 0x20) || InBank(addr, 0x30)
  }

  // A write other than to CONTROL is read back from its own address, where there
  // is anything to read back, and changes what no other address reads.
  lemma WriteReadsBack(c: Ctl, addr: nat, w: Word32, other: nat)
    requires SetupSized(c.setup) && addr != 0x00
    ensures Read(BusWrite(c, addr, w), other)
         == if addr == other && ReadsBack(addr) then Stored(addr, w) else Read(c, other)
  {
    hide FromInt, ByteBits, LowByte;
    LowReadsBack(w);
    BankReadsBack(c.setup.key, addr, 0x20, w, other);
    BankReadsBack(c.setup.nonce, addr, 0x30, w, other);
  }

  lemma LowReadsBack(w: Word32)
    ensures Low(LowByte(w)) == w[..8] + Zeros(24)
  {
    hide ByteOf;
    BitsRoundTrip(w[0..8]);
  }

  lemma BankReadsBack(reg: Bits, addr: nat, base: nat, w: Word32, other: nat)
    requires |reg| == 128
    ensures InBank(addr, base) && InBank(other, base) ==>
              WordOf(SetWord(reg, WordIndex(addr, base), w), WordIndex(other, base))
              == if addr == other then w else WordOf(reg, WordIndex(other, base))
  {
  }

  // The words of a finished job as a driver reads them.
  ghost predicate Delivers(R: nat, c: Ctl, m: Seen)
    requires 0 < R <= 12 && SetupSized(c.setup)
  {
    var status := Read(c, 0x04);
    && JobSmall(m.job) && Taken(m.job, m.words) && AllSent(m)
    && (status[2] <==> (m.job.decrypt ==> Expected(m.job, m.words).tag == m.job.tag))
    && (status[3] <==> !status[2])
    && Read(c, 0x60) + Read(c, 0x64) + Read(c, 0x68) + Read(c, 0x6C) == Expected(m.job, m.words).tag
    && Value(Read(c, 0x70) + Read(c, 0x74)) == (m.stalls + JobEdges(R, m.job)) % Pow2(64)
    && Value(Read(c, 0x78)) == (if status[3] then 4 else 0)
  }

  lemma WrapIsPow2()
    ensures CYCLE_WRAP == Pow2(64)
  {
    hide Pow2;
    SmallPowers();
    Pow2Sum(8, 8);
    Pow2Sum(16, 16);
    Pow2Sum(32, 32);
  }

  lemma ReportedDelivers(R: nat, c: Ctl, m: Seen)
    requires 0 < R <= 12 && SetupSized(c.setup) && Reported(R, c, m)
    ensures Delivers(R, c, m)
  {
    hide Read, Pow2, Value, JobEdges, AllSent, Expected, Taken;
    WrapIsPow2();
    TagReadsBack(c);
    CyclesReadBack(c);
    ErrorReadsBack(c);
    StatusBits(c);
  }

  lemma StatusBits(c: Ctl)
    requires SetupSized(c.setup)
    ensures var w := Read(c, 0x04);
            w[0] == c.busy && w[1] == c.done && w[2] == c.tagValid && w[3] == c.error && w[4..] == Zeros(28)
  {
  }

  // In the setting of DoneOnTime, what a driver reads: DONE exactly from that
  // cycle on, BUSY exactly until then, and with DONE the verdict, the tag, the
  // cycle count and the error code of that job.
  lemma RegistersTell(R: nat, r: Peripheral, m: Seen, cs: seq<Cycle>, ran: bool)
    requires Inv(R, r, m, ran) && |cs| > 1 && WritesStart(cs[0]) && Polite(r.ctl, cs[0])
    requires forall k :: 1 <= k < |cs| ==> !WritesStart(cs[k]) && !WritesClear(cs[k])
    ensures var (r', m') := Run(R, r, m, cs);
            var status := Read(r'.ctl, 0x04);
            && m'.job == JobOf(Clock(R, r, cs[0]).ctl)
            && (status[1] <==> |cs| >= m'.stalls + JobEdges(R, m'.job) + 2)
            && (status[0] <==> !status[1])
            && (status[1] ==> Delivers(R, r'.ctl, m'))
  {
    hide Inv, Clock, Run, WritesStart, WritesClear, Polite, Reported, JobEdges, Read, Delivers;
    DoneOnTime(R, r, m, cs, ran);
    var (r', m') := Run(R, r, m, cs);
    StatusBits(r'.ctl);
    if r'.ctl.done {
      ReportedDelivers(R, r'.ctl, m');
    }
  }

  // What a cycle moves on the two streams is decided by its own signals: a word
  // when one is offered and awaited, a beat when one is driven and taken.
  lemma StreamsMove(R: nat, r: Peripheral, m: Seen, i: Cycle, ran: bool)
    requires Inv(R, r, m, ran)
    ensures var m' := Watch(r.plane, m, EdgeOf(r.ctl, i));
            var awaited, driven := r.plane.shim.st.Ad? || r.plane.shim.st.Msg?, r.plane.eng.st.Tx?;
            if r.ctl.startPulse then m' == Seen(JobOf(r.ctl), [], [], 1, 0) && !awaited && !driven
            else
              && m'.job == m.job
              && m'.words == (if awaited && i.val then m.words + [i.dat] else m.words)
              && m'.beats == (if driven && i.rxReady then m.beats + [Sent(r.plane.eng)] else m.beats)
              && m'.stalls == m.stalls + if (awaited && !i.val) || (driven && !i.rxReady) then 1 else 0
  {
    hide Reported, Receiving, Complete, CoreBusy, AeadCore.Resting, CoreParams, Sent;
  }

  // Without a job a cycle does what the bus asks for and nothing else.
  lemma IdleCycle(R: nat, r: Peripheral, m: Seen, i: Cycle, ran: bool)
    requires Inv(R, r, m, ran) && !r.ctl.busy && !WritesStart(i)
    ensures Watch(r.plane, m, EdgeOf(r.ctl, i)) == m
    ensures var c' := Clock(R, r, i).ctl;
            c' == (if i.sel && i.we then BusWrite(r.ctl, i.addr, i.wdata) else r.ctl) && !c'.busy
  {
    hide SlinkPlane.Inv, SlinkPlane.Next, Watch, Reported, WriteSetup;
    PlaneFacts(R, r.plane, m, EdgeOf(r.ctl, i), ran);
  }

  lemma IdleStart(R: nat, r: Peripheral, m: Seen, i: Cycle, ran: bool)
    requires Inv(R, r, m, ran) && !r.ctl.busy && WritesStart(i)
    ensures var c' := Clock(R, r, i).ctl;
            c'.startPulse && c'.busy && JobOf(c') == JobOf(r.ctl).(decrypt := i.wdata[1])
    ensures !r.ctl.startPulse && r.plane.shim.st.Idle? && r.plane.eng.st.Idle?
  {
    hide SlinkPlane.Next, WriteSetup, Reported, Complete;
  }

  lemma RestedIsSound(R: nat, r: Peripheral, m: Seen)
    requires Rested(R, r)
    ensures Inv(R, r, m, false) && !r.ctl.busy
  {
    hide AeadCore.Resting, CoreParams, Reported, Complete;
  }

  // With a job under way a cycle brings it on by an edge, or to DONE.
  lemma BusyCycle(R: nat, r: Peripheral, m: Seen, i: Cycle, ran: bool)
    requires Inv(R, r, m, ran) && r.ctl.busy && !WritesStart(i) && !WritesClear(i)
    ensures var c', m' := Clock(R, r, i).ctl, Watch(r.plane, m, EdgeOf(r.ctl, i));
            if c'.busy then m'.edges == (if r.ctl.startPulse then 1 else m.edges + 1)
            else c'.done && (!r.ctl.startPulse ==> m'.edges == m.edges)
  {
    hide SlinkPlane.Inv, SlinkPlane.Next, Watch, Reported, WriteSetup;
    PlaneFacts(R, r.plane, m, EdgeOf(r.ctl, i), ran);
  }

  // A job is never older than its withheld cycles plus its fixed cost.
  lemma AgeIsBounded(R: nat, r: Peripheral, m: Seen, ran: bool)
    requires Inv(R, r, m, ran) && (r.ctl.done || (r.ctl.busy && !r.ctl.startPulse))
    ensures m.edges <= m.stalls + JobEdges(R, m.job)
  {
    hide SlinkPlane.Inv, JobEdges, AllSent, Result, Expected, Taken;
    PlaneFacts(R, r.plane, m, EdgeOf(r.ctl, Cycle(false, false, 0, Zeros(32), Zeros(32), false, false)), ran);
    if !r.plane.eng.st.Idle? {
      BusyIsBounded(R, r.plane, m);
    }
  }

  lemma PulseFollowsStart(R: nat, r: Peripheral, i: Cycle)
    requires 0 < R <= 12 && Sized(r)
    ensures Clock(R, r, i).ctl.startPulse == WritesStart(i)
  {
    hide SlinkPlane.Next, WriteSetup;
  }
}
