// The shim that turns a plain word stream into tagged stream beats.
module SlinkShim {
  import opened BitVectors
  import opened StreamBeat
  import opened Counters

  datatype Phase = Idle | Ad | Msg | Null

  datatype Regs = Regs(st: Phase, adLen: nat, msgLen: nat, cnt: nat)

  // Inputs from the control registers, the word stream and the engine.
  datatype Inputs = Inputs(start: bool, adLen: nat, msgLen: nat, dat: Bits, val: bool, tready: bool)

  function KeepCount(rem: nat): nat
  {
    if rem >= 4 then 4 else rem
  }

  function Drive(r: Regs, i: Inputs): (b: Beat)
    ensures |b.keep| == 4
  {
    match r.st
    case Idle => Beat(i.dat, KeepMask(0), false, false, false)
    case Ad => Beat(i.dat, KeepMask(KeepCount(Rem(r.adLen, r.cnt))), false, false, i.val)
    case Msg => Beat(i.dat, KeepMask(KeepCount(Rem(r.msgLen, r.cnt))), true, Rem(r.msgLen, r.cnt) <= 4, i.val)
    case Null => Beat(i.dat, KeepMask(0), true, true, true)
  }

  // slink_rdy_o: a word leaves the stream when this and val are high.
  function WordReady(r: Regs, i: Inputs): bool
  {
    (r.st == Ad || r.st == Msg) && i.tready
  }

  function Next(r: Regs, i: Inputs): Regs
  {
    var beat := Drive(r, i).valid && i.tready;
    match r.st
    case Idle =>
      if i.start
      then Regs(if i.adLen != 0 then Ad else if i.msgLen != 0 then Msg else Null, i.adLen, i.msgLen, 0)
      else r
    case Ad =>
      if !beat then r
      else if Rem(r.adLen, r.cnt) <= 4 then r.(cnt := 0, st := if r.msgLen != 0 then Msg else Null)
      else r.(cnt := (r.cnt + 4) % 256)
    case Msg =>
      if !beat then r
      else if Rem(r.msgLen, r.cnt) <= 4 then r.(st := Idle)
      else r.(cnt := (r.cnt + 4) % 256)
    case Null =>
      if beat then r.(st := Idle) else r
  }

  class Shim {
    var st: Phase
    var adLen: nat
    var msgLen: nat
    var cnt: nat

    function Registers(): Regs
      reads this
    {
      Regs(st, adLen, msgLen, cnt)
    }

    constructor ()
      ensures Registers() == Regs(Idle, 0, 0, 0)
    {
      st, adLen, msgLen, cnt := Idle, 0, 0, 0;
    }

    method Step(i: Inputs)
      modifies this
      ensures Registers() == Next(old(Registers()), i)
    {
      var beat := Drive(Registers(), i).valid && i.tready;
      match st {
        case Idle =>
          if i.start {
            adLen, msgLen, cnt := i.adLen, i.msgLen, 0;
            st := if i.adLen != 0 then Ad else if i.msgLen != 0 then Msg else Null;
          }
        case Ad =>
          if beat {
            if Rem(adLen, cnt) <= 4 {
              cnt := 0;
              st := if msgLen != 0 then Msg else Null;
            } else {
              cnt := (cnt + 4) % 256;
            }
          }
        case Msg =>
          if beat {
            if Rem(msgLen, cnt) <= 4 {
              st := Idle;
            } else {
              cnt := (cnt + 4) % 256;
            }
          }
        case Null =>
          if beat {
            st := Idle;
          }
      }
    }
  }
}
