// The stream engine: collects tagged beats, runs the AEAD core, sends the result.
module AxisEngine {
  import opened BitVectors
  import opened Aead
  import opened StreamBeat
  import opened Counters
  import opened Wires
  import AeadCore

  // 32-byte buffers, the rate-16 core, R rounds per cycle.
  function CoreParams(R: nat): (p: AeadCore.Params)
    requires 0 < R <= 12
    ensures p.Valid() && p.cfg.keyBits == 128 && p.adMax == 32 && p.msgMax == 32
  {
    ConfigsValid();
    AeadCore.Params(NIST_AEAD128, 32, 32, R)
  }

  datatype Phase = Idle | Rx | Start | Busy | Wait | Tx | Done

  // What a start latches.
  datatype Job = Job(decrypt: bool, key: Bits, nonce: Bits, adLen: nat, msgLen: nat, tag: Bits)

  predicate JobFits(j: Job)
  {
    |j.key| == 128 && |j.nonce| == 128 && |j.tag| == 128 && j.adLen < 256 && j.msgLen < 256
  }

  datatype Regs = Regs(st: Phase, adbuf: Bits, msgbuf: Bits, outbuf: Bits, adPos: nat, msgPos: nat, txPos: nat,
                       job: Job, coreStart: bool, tagO: Bits, validO: bool, doneO: bool, core: AeadCore.Regs)

  datatype Inputs = Inputs(start: bool, job: Job, beat: Beat, mReady: bool)

  predicate Sized(e: Regs)
  {
    |e.adbuf| == 256 && |e.msgbuf| == 256 && |e.outbuf| == 256 && JobFits(e.job) && |e.core.outR| == 8 * 48
  }

  predicate InputsFit(i: Inputs)
  {
    JobFits(i.job) && |i.beat.data| == 32 && |i.beat.keep| == 4
  }

  function ReadyOut(e: Regs): bool
  {
    e.st == Rx
  }

  // Byte k of the word is stored at byte pos + k when its keep bit is set.
  function StoreByte(buf: Bits, pos: nat, beat: Beat, k: nat): (r: Bits)
    requires |beat.data| == 32 && |beat.keep| == 4 && k < 4
    ensures |r| == |buf|
  {
    if beat.keep[k] then Write(buf, 8 * (pos + k), beat.data[8 * k..8 * k + 8]) else buf
  }

  function Store(buf: Bits, pos: nat, beat: Beat): (r: Bits)
    requires |beat.data| == 32 && |beat.keep| == 4
    ensures |r| == |buf|
  {
    StoreByte(StoreByte(StoreByte(StoreByte(buf, pos, beat, 0), pos, beat, 1), pos, beat, 2), pos, beat, 3)
  }

  function Kept(keep: seq<bool>): nat
    requires |keep| == 4
  {
    Bit(keep[0]) + Bit(keep[1]) + Bit(keep[2]) + Bit(keep[3])
  }

  // The output beat, combinational in the registers.
  function Sent(e: Regs): (b: Beat)
    requires Sized(e)
    ensures |b.data| == 32 && |b.keep| == 4
  {
    var rem := Rem(e.job.msgLen, e.txPos);
    Beat(Select(e.outbuf, 8 * e.txPos, 32), KeepMask(rem), false, e.st == Tx && rem <= 4, e.st == Tx)
  }

  function CoreInputs(e: Regs): AeadCore.Inputs
  {
    AeadCore.Inputs(e.coreStart, e.job.decrypt, e.job.nonce, e.job.adLen, e.job.msgLen,
                    AeadCore.Held(e.job.key, e.adbuf, e.msgbuf, e.job.tag))
  }

  function Control(e: Regs, i: Inputs): (e': Regs)
    requires Sized(e) && InputsFit(i)
    ensures Sized(e') && e'.core == e.core
  {
    hide Store;
    var q := e.(coreStart := false, doneO := false);
    match e.st
    case Idle =>
      if i.start
      then q.(job := i.job, adPos := 0, msgPos := 0, txPos := 0, validO := false,
              adbuf := Zeros(256), msgbuf := Zeros(256), st := Rx)
      else q
    case Rx =>
      if !i.beat.valid then q
      else
        var t := if i.beat.user
                 then q.(msgbuf := Store(e.msgbuf, e.msgPos, i.beat), msgPos := (e.msgPos + Kept(i.beat.keep)) % 256)
                 else q.(adbuf := Store(e.adbuf, e.adPos, i.beat), adPos := (e.adPos + Kept(i.beat.keep)) % 256);
        if i.beat.last && i.beat.user then t.(st := Start) else t
    case Start => q.(coreStart := true, st := Busy)
    case Busy => if !e.core.st.Idle? then q.(st := Wait) else q
    case Wait =>
      if e.core.doneO
      then q.(outbuf := e.core.outR[..256], tagO := e.core.tagO, validO := e.core.validO, txPos := 0,
              st := if e.job.msgLen == 0 then Done else Tx)
      else q
    case Tx =>
      if !i.mReady then q
      else if Rem(e.job.msgLen, e.txPos) <= 4 then q.(st := Done)
      else q.(txPos := (e.txPos + 4) % 256)
    case Done => q.(doneO := true, st := Idle)
  }

  function Next(R: nat, e: Regs, i: Inputs): (e': Regs)
    requires 0 < R <= 12 && Sized(e) && InputsFit(i)
    ensures Sized(e')
  {
    hide Control, AeadCore.Next, CoreParams;
    Control(e, i).(core := AeadCore.Next(CoreParams(R), e.core, CoreInputs(e)))
  }

  class Engine {
    const R: nat
    const core: AeadCore.Core
    var st: Phase
    var adbuf: Bits
    var msgbuf: Bits
    var outbuf: Bits
    var adPos: nat
    var msgPos: nat
    var txPos: nat
    var job: Job
    var coreStart: bool
    var tagO: Bits
    var validO: bool
    var doneO: bool

    function Registers(): Regs
      reads this, core, core.perm
    {
      Regs(st, adbuf, msgbuf, outbuf, adPos, msgPos, txPos, job, coreStart, tagO, validO, doneO, core.Registers())
    }

    ghost predicate Wired()
      reads this, core, core.perm
    {
      0 < R <= 12 && core.p == CoreParams(R) && core.Wired() && Sized(Registers())
    }

    constructor (R: nat)
      requires 0 < R <= 12
      ensures this.R == R && Wired() && fresh(core) && fresh(core.perm)
      ensures st == Idle && !coreStart && !doneO && AeadCore.Resting(core.p, core.Registers())
    {
      hide CoreParams;
      this.R := R;
      core := new AeadCore.Core(CoreParams(R));
      st, coreStart, validO, doneO := Idle, false, false, false;
      adPos, msgPos, txPos := 0, 0, 0;
      adbuf, msgbuf, outbuf, tagO := Zeros(256), Zeros(256), Zeros(256), Zeros(128);
      job := Job(false, Zeros(128), Zeros(128), 0, 0, Zeros(128));
    }

    // One edge: the engine's own registers, then the core on the old ones.
    method Step(i: Inputs)
      requires Wired() && InputsFit(i)
      modifies this, core, core.perm
      ensures Wired() && Registers() == Next(R, old(Registers()), i)
    {
      hide Control, AeadCore.Next, CoreParams, AeadCore.Core.Registers;
      var sampled := CoreInputs(Registers());
      match st {
        case Idle => Accept(i);
        case Rx => Receive(i);
        case Start => Advance(i);
        case Busy => Advance(i);
        case Wait => Capture(i);
        case Tx => Send(i);
        case Done => Advance(i);
      }
      core.Step(sampled);
    }

    // core_start and done_o are pulses: low unless an edge says otherwise.
    method ClearPulses()
      modifies this
      ensures Registers() == old(Registers()).(coreStart := false, doneO := false)
    {
      coreStart, doneO := false, false;
    }

    method LatchJob(j: Job)
      modifies this
      ensures Registers() == old(Registers()).(job := j, adPos := 0, msgPos := 0, txPos := 0, st := Rx)
    {
      job, adPos, msgPos, txPos, st := j, 0, 0, 0, Rx;
    }

    method Accept(i: Inputs)
      requires Wired() && InputsFit(i) && st == Idle
      modifies this
      ensures Registers() == Control(old(Registers()), i)
    {
      hide Zeros, CoreParams;
      ClearPulses();
      if i.start {
        LatchJob(i.job);
        validO, adbuf, msgbuf := false, Zeros(256), Zeros(256);
      }
    }

    method Receive(i: Inputs)
      requires Wired() && InputsFit(i) && st == Rx
      modifies this
      ensures Registers() == Control(old(Registers()), i)
    {
      hide Store, CoreParams;
      ClearPulses();
      if i.beat.valid {
        if i.beat.user {
          msgbuf, msgPos := Store(msgbuf, msgPos, i.beat), (msgPos + Kept(i.beat.keep)) % 256;
          if i.beat.last {
            st := Start;
          }
        } else {
          adbuf, adPos := Store(adbuf, adPos, i.beat), (adPos + Kept(i.beat.keep)) % 256;
        }
      }
    }

    method Advance(i: Inputs)
      requires Wired() && InputsFit(i) && (st == Start || st == Busy || st == Done)
      modifies this
      ensures Registers() == Control(old(Registers()), i)
    {
      hide CoreParams;
      coreStart, doneO := st == Start, st == Done;
      if st == Start {
        st := Busy;
      } else if st == Done {
        st := Idle;
      } else if !core.st.Idle? {
        st := Wait;
      }
    }

    method Capture(i: Inputs)
      requires Wired() && InputsFit(i) && st == Wait
      modifies this
      ensures Registers() == Control(old(Registers()), i)
    {
      hide CoreParams;
      ClearPulses();
      if core.doneO {
        outbuf, tagO, validO := core.outR[..256], core.tagO, core.validO;
        txPos, st := 0, if job.msgLen == 0 then Done else Tx;
      }
    }

    method Send(i: Inputs)
      requires Wired() && InputsFit(i) && st == Tx
      modifies this
      ensures Registers() == Control(old(Registers()), i)
    {
      hide CoreParams;
      ClearPulses();
      if i.mReady {
        if Rem(job.msgLen, txPos) <= 4 {
          st := Done;
        } else {
          txPos := (txPos + 4) % 256;
        }
      }
    }
  }
}
