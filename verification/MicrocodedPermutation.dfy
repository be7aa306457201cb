// The microcoded permutation core: a program counter walks a ROM that holds one
// instruction per round of p12.
module MicrocodedPermutation {
  import opened BitVectors
  import opened Permutation
  import opened PermutationPort

  datatype Instruction = Instruction(index: nat, halt: bool)

  // const_index k + 4, halting on the last of the twelve.
  function Rom(pc: nat): Instruction
    requires pc < 12
  {
    Instruction(pc + 4, pc == 11)
  }

  function EntryPc(rounds: nat): nat
  {
    match rounds
    case 0 => 6
    case 1 => 4
    case 2 => 0
    case _ => 12
  }

  datatype Sequencer = Sequencer(s: State, pc: nat, run: bool, stateO: State, validO: bool)

  predicate PcInRom(r: Sequencer)
  {
    r.run ==> r.pc < 12
  }

  // start_i is sampled only when the sequencer is idle.
  function Tick(r: Sequencer, i: Inputs): (r': Sequencer)
    requires PcInRom(r)
    ensures PcInRom(r')
  {
    hide Round;
    if !r.run then
      if i.start then r.(s := i.state, pc := EntryPc(i.rounds) % 16, run := EntryPc(i.rounds) < 12, validO := false)
      else r.(validO := false)
    else
      var roundNext := Round(r.s, Rom(r.pc).index);
      if Rom(r.pc).halt then r.(s := roundNext, stateO := roundNext, validO := true, run := false)
      else r.(s := roundNext, pc := (r.pc + 1) % 16, validO := false)
  }

  class Core {
    var s: State
    var pc: nat
    var run: bool
    var stateO: State
    var validO: bool

    function Registers(): Sequencer
      reads this
    {
      Sequencer(s, pc, run, stateO, validO)
    }

    constructor ()
      ensures Registers() == Sequencer(Zeros(320), 0, false, Zeros(320), false)
    {
      run, validO, pc := false, false, 0;
      s, stateO := Zeros(320), Zeros(320);
    }

    method Step(i: Inputs)
      requires PcInRom(Registers())
      modifies this
      ensures Registers() == Tick(old(Registers()), i)
      ensures PcInRom(Registers())
    {
      hide Round;
      validO := false;
      if run {
        var instruction := Rom(pc);
        var roundNext := Round(s, instruction.index);
        s := roundNext;
        if instruction.halt {
          stateO := roundNext;
          validO := true;
          run := false;
        } else {
          pc := (pc + 1) % 16;
        }
      } else if i.start {
        s := i.state;
        pc := EntryPc(i.rounds) % 16;
        run := EntryPc(i.rounds) < 12;
      }
    }
  }

  function Walk(r: Sequencer, ins: seq<Inputs>): Sequencer
    requires PcInRom(r)
    decreases |ins|
  {
    if |ins| == 0 then r else Walk(Tick(r, ins[0]), ins[1..])
  }

  lemma {:induction false} WalkRunning(r: Sequencer, ins: seq<Inputs>)
    requires r.run && PcInRom(r) && 0 < |ins| <= 12 - r.pc
    ensures Walk(r, ins).validO == (|ins| == 12 - r.pc)
    ensures |ins| == 12 - r.pc ==> Walk(r, ins).stateO == RoundsFrom(r.s, r.pc + 4)
    decreases |ins|
  {
    hide Round;
    var r1 := Tick(r, ins[0]);
    if |ins| > 1 {
      WalkRunning(r1, ins[1..]);
      assert RoundsFrom(r.s, r.pc + 4) == RoundsFrom(r1.s, r1.pc + 4);
    } else {
      assert Walk(r, ins) == r1;
      assert RoundsFrom(r1.s, 16) == r1.s;
    }
  }

  // From idle, entering the shared program at the selected point runs exactly
  // the selected permutation, in one edge a round, whatever the inputs do after
  // the first edge.
  lemma MicrocodeComputesPermutation(r: Sequencer, ins: seq<Inputs>)
    requires !r.run && |ins| > 0 && ins[0].start && ins[0].rounds < 3
    requires |ins| <= 1 + RoundCount(ins[0].rounds)
    ensures var n := RoundCount(ins[0].rounds);
            var last := Walk(r, ins);
            last.validO == (|ins| == 1 + n) && (last.validO ==> last.stateO == Permute(ins[0].state, n))
  {
    hide Round, RoundsFrom;
    var r1 := Tick(r, ins[0]);
    if |ins| > 1 {
      WalkRunning(r1, ins[1..]);
    } else {
      assert Walk(r, ins) == r1;
    }
  }
}
