// The iterative permutation core: up to R guarded rounds per clock.
module IterativePermutation {
  import opened BitVectors
  import opened Permutation
  import opened Counters
  import opened PermutationPort

  datatype Regs = Regs(s: State, idx: nat, running: bool, stateO: State, validO: bool)

  // Stages k .. R-1 of the combinational block, each guarded by its own
  // five-bit index sum.
  function Stages(t: State, idx: nat, k: nat, R: nat): State
    requires k <= R
    decreases R - k
  {
    if k == R then t
    else
      var i := (idx + k) % 32;
      Stages(if i < DONE then Round(t, i) else t, idx, k + 1, R)
  }

  function Next(R: nat, r: Regs, i: Inputs): Regs
  {
    if i.start then
      r.(s := i.state, idx := StartIndex(i.rounds), running := true, validO := false)
    else if r.running then
      var nextS := Stages(r.s, r.idx, 0, R);
      if (r.idx + R) % 32 >= DONE
      then r.(s := nextS, stateO := nextS, validO := true, running := false)
      else r.(s := nextS, idx := (r.idx + R) % 32, validO := false)
    else
      r.(validO := false)
  }

  class Core {
    const R: nat
    var s: State
    var idx: nat
    var running: bool
    var stateO: State
    var validO: bool

    function Registers(): Regs
      reads this
    {
      Regs(s, idx, running, stateO, validO)
    }

    constructor (R: nat)
      ensures this.R == R && Registers() == Reset()
    {
      this.R := R;
      running, validO, idx := false, false, DONE;
      s, stateO := Zeros(320), Zeros(320);
    }

    method Step(i: Inputs)
      modifies this
      ensures Registers() == Next(R, old(Registers()), i)
    {
      hide Stages;
      var nextS := Stages(s, idx, 0, R);
      validO := false;
      if i.start {
        s := i.state;
        idx := StartIndex(i.rounds);
        running := true;
      } else if running {
        s := nextS;
        if (idx + R) % 32 >= DONE {
          stateO := nextS;
          validO := true;
          running := false;
        } else {
          idx := (idx + R) % 32;
        }
      }
    }
  }

  function Reset(): Regs
  {
    Regs(Zeros(320), DONE, false, Zeros(320), false)
  }

  // ------------------------------------------------------------ correctness

  predicate Valid(r: Regs)
  {
    r.idx <= 16
  }

  // The guarded block leaves exactly the rounds that it did not reach.
  lemma {:induction false} StagesAreRounds(t: State, idx: nat, k: nat, R: nat)
    requires k <= R <= 12 && idx <= 16
    ensures var from := if idx + k < 16 then idx + k else 16;
            var to := if idx + R < 16 then idx + R else 16;
            RoundsFrom(Stages(t, idx, k, R), to) == RoundsFrom(t, from)
    decreases R - k
  {
    hide Round;
    if k < R {
      assert (idx + k) % 32 == idx + k;
      StagesAreRounds(if idx + k < 16 then Round(t, idx + k) else t, idx, k + 1, R);
    }
  }

  // What the core will deliver, and in how many edges, once it is running.
  function Pending(r: Regs): State
    requires Valid(r)
  {
    RoundsFrom(r.s, r.idx)
  }

  lemma Started(R: nat, r: Regs, i: Inputs)
    requires i.start
    ensures var r' := Next(R, r, i);
            Valid(r') && r'.running && !r'.validO && Pending(r') == Permute(i.state, RoundCount(i.rounds))
            && r'.idx == StartIndex(i.rounds)
  {
    hide RoundsFrom;
  }

  lemma Running(R: nat, r: Regs, i: Inputs)
    requires 0 < R <= 12 && Valid(r) && r.running && !i.start
    ensures var r' := Next(R, r, i);
            Valid(r') &&
            if StepsTo(16, R, r.idx) == 1 then r'.validO && !r'.running && r'.stateO == Pending(r)
            else
              && r'.running && !r'.validO && Pending(r') == Pending(r)
              && StepsTo(16, R, r'.idx) == StepsTo(16, R, r.idx) - 1
  {
    hide Round, Stages;
    StagesAreRounds(r.s, r.idx, 0, R);
    assert (r.idx + R) % 32 == r.idx + R;
  }

  function Run(R: nat, r: Regs, ins: seq<Inputs>): Regs
    decreases |ins|
  {
    if |ins| == 0 then r else Run(R, Next(R, r, ins[0]), ins[1..])
  }

  lemma {:induction false} RunIdle(R: nat, r: Regs, ins: seq<Inputs>)
    requires !r.running
    requires forall k :: 0 <= k < |ins| ==> !ins[k].start
    ensures Run(R, r, ins) == if |ins| == 0 then r else r.(validO := false)
    decreases |ins|
  {
    hide Stages, Round;
    if |ins| > 0 {
      RunIdle(R, Next(R, r, ins[0]), ins[1..]);
    }
  }

  lemma {:induction false} RunFromRunning(R: nat, r: Regs, ins: seq<Inputs>)
    requires 0 < R <= 12 && Valid(r) && r.running && |ins| > 0
    requires forall k :: 0 <= k < |ins| ==> !ins[k].start
    ensures var c, last := StepsTo(16, R, r.idx), Run(R, r, ins);
            last.validO == (|ins| == c) && (|ins| >= c ==> last.stateO == Pending(r))
    decreases |ins|
  {
    hide Next, Pending;
    Running(R, r, ins[0]);
    var r1 := Next(R, r, ins[0]);
    if StepsTo(16, R, r.idx) == 1 {
      RunIdle(R, r1, ins[1..]);
    } else if |ins| > 1 {
      RunFromRunning(R, r1, ins[1..]);
    } else {
      assert Run(R, r, ins) == r1;
    }
  }

  // For every R in 1..12, whatever the core was doing: a start pulse followed
  // by edges without one delivers the selected permutation after exactly
  // c = ceil(n / R) edges, announces it for that one edge and then holds it.
  lemma IterativeComputesPermutation(R: nat, r: Regs, ins: seq<Inputs>)
    requires 0 < R <= 12 && |ins| > 0
    requires forall k :: 0 <= k < |ins| ==> ins[k].start == (k == 0)
    requires ins[0].rounds < 3
    ensures var n := RoundCount(ins[0].rounds);
            var c := StepsTo(16, R, 16 - n);
            var last := Run(R, r, ins);
            && (c - 1) * R < n <= c * R
            && last.validO == (|ins| == 1 + c)
            && (|ins| >= 1 + c ==> last.stateO == Permute(ins[0].state, n))
  {
    hide Next, Pending, Permute;
    var n := RoundCount(ins[0].rounds);
    Started(R, r, ins[0]);
    StepsToIsCeiling(16, R, 16 - n);
    var r1 := Next(R, r, ins[0]);
    if |ins| > 1 {
      RunFromRunning(R, r1, ins[1..]);
    } else {
      assert Run(R, r, ins) == r1;
    }
  }
}
