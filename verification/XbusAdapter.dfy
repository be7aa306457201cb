// The bus adapter: it captures a one-cycle strobe, presents the access until
// the peripheral is ready, and acknowledges in that cycle.
module XbusAdapter {
  import opened BitVectors
  import opened AxisMmio
  import opened MmioPlane

  // The bus side: the low address byte, data, write, strobe and cycle.
  datatype Pins = Pins(adr: nat, dat: Word32, we: bool, stb: bool, cyc: bool)

  datatype Board = Board(access: bool, dev: Peripheral)

  function AccessOf(b: Board, p: Pins): Access
  {
    Access(b.access, p.we, p.adr, p.dat)
  }

  predicate Ack(b: Board, p: Pins)
  {
    b.access && Ready(b.dev, AccessOf(b, p))
  }

  function Next(R: nat, b: Board, p: Pins): (b': Board)
    requires 0 < R <= 12 && Fits(b.dev)
    ensures Fits(b'.dev)
  {
    hide Clock;
    Board(if !b.access then p.cyc && p.stb else if Ready(b.dev, AccessOf(b, p)) then false else b.access,
          Clock(R, b.dev, AccessOf(b, p)))
  }

  const QUIET := Pins(0, Zeros(32), false, false, false)

  // The access is completed within `patience` cycles of being presented.
  ghost predicate Answers(R: nat, d: Peripheral, i: Access, patience: nat)
    requires 0 < R <= 12 && Fits(d)
    decreases patience
  {
    hide Clock;
    patience > 0 && (Ready(d, i) || Answers(R, Clock(R, d, i), i, patience - 1))
  }

  // The peripheral in the cycle that completes the access.
  function Served(R: nat, d: Peripheral, i: Access, patience: nat): (s: Peripheral)
    requires 0 < R <= 12 && Fits(d)
    ensures Fits(s)
    decreases patience
  {
    hide Clock;
    if patience == 0 || Ready(d, i) then d else Served(R, Clock(R, d, i), i, patience - 1)
  }

  lemma ServedNow(R: nat, d: Peripheral, i: Access, patience: nat)
    requires 0 < R <= 12 && Fits(d) && Ready(d, i) && patience > 0
    ensures Answers(R, d, i, patience) && Served(R, d, i, patience) == d
  {
    hide Clock;
  }

  // However long the processor waits before it strobes, the access is answered.
  ghost predicate AnswersAlways(R: nat, d: Peripheral, i: Access, patience: nat)
    requires 0 < R <= 12 && Fits(d)
  {
    hide Clock;
    forall n: nat :: n > 0 ==> Answers(R, Rest(R, d, n), i, patience)
  }

  function Run(R: nat, b: Board, ps: seq<Pins>): (b': Board)
    requires 0 < R <= 12 && Fits(b.dev)
    ensures Fits(b'.dev)
    decreases |ps|
  {
    hide Next;
    if |ps| == 0 then b else Next(R, Run(R, b, ps[..|ps| - 1]), ps[|ps| - 1])
  }

  // Without a strobe inside a bus cycle nothing is acknowledged and the
  // peripheral sees no access, whatever else is on the bus.
  lemma {:induction false} NoStrobeNoAccess(R: nat, b: Board, ps: seq<Pins>, p: Pins)
    requires 0 < R <= 12 && Fits(b.dev) && !b.access
    requires forall k :: 0 <= k < |ps| ==> !(ps[k].cyc && ps[k].stb)
    ensures Run(R, b, ps) == Board(false, Rest(R, b.dev, |ps|)) && !Ack(Run(R, b, ps), p)
    decreases |ps|
  {
    hide Clock;
    if |ps| > 0 {
      var before, last := ps[..|ps| - 1], ps[|ps| - 1];
      NoStrobeNoAccess(R, b, before, last);
      UnselectedSame(R, Rest(R, b.dev, |before|), AccessOf(Run(R, b, before), last));
    }
  }

  class Adapter {
    const mmio: Registers
    var access: bool

    function State(): Board
      reads this, mmio, mmio.eng, mmio.eng.core, mmio.eng.core.perm
    {
      Board(access, mmio.State())
    }

    ghost predicate Wired()
      reads this, mmio, mmio.eng, mmio.eng.core, mmio.eng.core.perm
      ensures Wired() ==> 0 < mmio.R <= 12 && Fits(mmio.State())
    {
      mmio.Wired()
    }

    // No transaction in progress.
    ghost predicate Free()
      reads this, mmio, mmio.eng, mmio.eng.core, mmio.eng.core.perm
      ensures Free() ==> 0 < mmio.R <= 12 && Fits(mmio.State())
    {
      Wired() && !access
    }

    constructor (R: nat)
      requires 0 < R <= 12
      ensures mmio.R == R && Free() && Settled(R, mmio.State())
      ensures fresh(mmio) && fresh(mmio.eng) && fresh(mmio.eng.core) && fresh(mmio.eng.core.perm)
    {
      hide Settled, Registers.State, Registers.Wired;
      mmio := new Registers(R);
      access := false;
    }

    // One clock edge; acknowledge and read data are combinational before it.
    method Step(p: Pins) returns (ack: bool, rdata: Word32)
      requires Wired()
      modifies this, mmio, mmio.eng, mmio.eng.core, mmio.eng.core.perm
      ensures ack == old(Ack(State(), p)) && rdata == old(Read(mmio.State(), p.adr))
      ensures Wired() && State() == Next(mmio.R, old(State()), p)
    {
      hide Clock, Registers.State, Registers.Wired, Read;
      var i := AccessOf(State(), p);
      var ready := Ready(mmio.State(), i);
      ack, rdata := access && ready, Read(mmio.State(), p.adr);
      if !access {
        access := p.cyc && p.stb;
      } else if ready {
        access := false;
      }
      mmio.Step(i);
    }

    // A processor transaction: any number of idle cycles, the strobe for one
    // cycle, then the request held until it is acknowledged.
    method Transact(we: bool, adr: nat, dat: Word32, ghost patience: nat) returns (rdata: Word32, ghost gap: nat)
      requires Free() && AnswersAlways(mmio.R, mmio.State(), Access(true, we, adr, dat), patience)
      modifies this, mmio, mmio.eng, mmio.eng.core, mmio.eng.core.perm
      ensures gap > 0 && Free()
      ensures var i := Access(true, we, adr, dat);
              var d := Served(mmio.R, Rest(mmio.R, old(mmio.State()), gap), i, patience);
              && Ready(d, i) && mmio.State() == Clock(mmio.R, d, i)
              && rdata == Read(d, adr)
    {
      hide Clock, Registers.State, Registers.Wired, Read, Answers, Served;
      ghost var R, d0, i := mmio.R, mmio.State(), Access(true, we, adr, dat);
      gap := Wait();
      ghost var d1 := mmio.State();
      var ack: bool;
      ack, rdata := Step(Pins(adr, dat, we, true, true));
      UnselectedSame(R, d1, Access(false, we, adr, dat));
      gap := gap + 1;
      ghost var left := patience;
      assert mmio.State() == Rest(R, d0, gap);
      ack := false;
      while !ack
        invariant Wired() && access == !ack
        invariant !ack ==> Answers(R, mmio.State(), i, left)
        invariant !ack ==> Served(R, mmio.State(), i, left) == Served(R, Rest(R, d0, gap), i, patience)
        invariant ack ==>
                    var d := Served(R, Rest(R, d0, gap), i, patience);
                    Ready(d, i) && mmio.State() == Clock(R, d, i) && rdata == Read(d, adr)
        decreases !ack, left
      {
        ServedUnfolds(R, mmio.State(), i, left);
        left := left - 1;
        ack, rdata := Step(Pins(adr, dat, we, false, true));
      }
    }

    // Idle cycles, as many as the processor likes.
    method Wait() returns (ghost n: nat)
      requires Free()
      modifies this, mmio, mmio.eng, mmio.eng.core, mmio.eng.core.perm
      ensures Free() && mmio.State() == Rest(mmio.R, old(mmio.State()), n)
    {
      hide Clock, Registers.State, Registers.Wired, Read;
      ghost var R, d0 := mmio.R, mmio.State();
      n := 0;
      var cycles: nat := *;
      while cycles > 0
        invariant Free() && mmio.State() == Rest(R, d0, n)
      {
        ghost var d := mmio.State();
        var ack, rdata := Step(QUIET);
        UnselectedSame(R, d, Access(false, false, 0, Zeros(32)));
        n := n + 1;
        cycles := cycles - 1;
      }
    }
  }

  lemma ServedUnfolds(R: nat, d: Peripheral, i: Access, patience: nat)
    requires 0 < R <= 12 && Fits(d) && Answers(R, d, i, patience)
    ensures patience > 0
    ensures Ready(d, i) ==> Served(R, d, i, patience) == d
    ensures !Ready(d, i) ==>
              Answers(R, Clock(R, d, i), i, patience - 1)
                && Served(R, Clock(R, d, i), i, patience - 1) == Served(R, d, i, patience)
  {
    hide Clock;
  }
}
