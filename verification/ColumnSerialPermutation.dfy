// The column-serial permutation core: K S-box columns per clock, with the
// constant addition and the linear layer as full-width single steps.
module ColumnSerialPermutation {
  import opened BitVectors
  import opened Permutation
  import opened Counters
  import opened ColumnStep
  import opened PermutationPort

  datatype Phase = Idle | AddConstant | Sbox | Linear

  datatype Serial = Serial(s: State, idx: nat, col: nat, st: Phase, stateO: State, validO: bool)

  predicate ColumnsPerCycle(K: nat)
  {
    K == 1 || K == 2 || K == 4 || K == 8 || K == 16 || K == 32
  }

  // Columns base + m .. base + K - 1, each guarded by its seven-bit sum.
  function SboxChunk(o: State, base: nat, m: nat, K: nat): State
    requires m <= K
    decreases K - m, o
  {
    if m == K then o
    else
      var j := (base + m) % 128;
      SboxChunk(if j < 64 then SubstituteAt(o, j) else o, base, m + 1, K)
  }

  predicate InRange(r: Serial)
  {
    r.st != Idle ==> r.idx < 16
  }

  function Next(K: nat, r: Serial, i: Inputs): (r': Serial)
    requires InRange(r)
    ensures InRange(r')
  {
    match r.st
    case Idle =>
      if i.start
      then r.(s := i.state, idx := StartIndex(i.rounds), col := 0, validO := false,
              st := if StartIndex(i.rounds) >= DONE then Idle else AddConstant)
      else r.(validO := false)
    case AddConstant =>
      r.(s := PC(r.s, r.idx), col := 0, st := Sbox, validO := false)
    case Sbox =>
      var t := SboxChunk(r.s, r.col, 0, K);
      if (r.col + K) % 128 >= 64 then r.(s := t, st := Linear, validO := false)
      else r.(s := t, col := (r.col + K) % 128, validO := false)
    case Linear =>
      var t := PL(r.s);
      if (r.idx + 1) % 32 >= DONE then r.(s := t, stateO := t, validO := true, st := Idle)
      else r.(s := t, idx := (r.idx + 1) % 32, st := AddConstant, validO := false)
  }

  class Core {
    const K: nat
    var s: State
    var idx: nat
    var col: nat
    var st: Phase
    var stateO: State
    var validO: bool

    function Registers(): Serial
      reads this
    {
      Serial(s, idx, col, st, stateO, validO)
    }

    constructor (K: nat)
      ensures this.K == K && Registers() == Serial(Zeros(320), DONE, 0, Idle, Zeros(320), false)
    {
      this.K := K;
      st, validO, idx, col := Idle, false, DONE, 0;
      s, stateO := Zeros(320), Zeros(320);
    }

    method Step(i: Inputs)
      requires InRange(Registers())
      modifies this
      ensures Registers() == Next(K, old(Registers()), i)
      ensures InRange(Registers())
    {
      hide PC, PL, SboxChunk;
      validO := false;
      match st {
        case Idle =>
          if i.start {
            s := i.state;
            idx := StartIndex(i.rounds);
            col := 0;
            st := if StartIndex(i.rounds) >= DONE then Idle else AddConstant;
          }
        case AddConstant =>
          s := PC(s, idx);
          col := 0;
          st := Sbox;
        case Sbox =>
          s := SboxChunk(s, col, 0, K);
          if (col + K) % 128 >= 64 {
            st := Linear;
          } else {
            col := (col + K) % 128;
          }
        case Linear =>
          s := PL(s);
          if (idx + 1) % 32 >= DONE {
            stateO := s;
            validO := true;
            st := Idle;
          } else {
            idx := (idx + 1) % 32;
            st := AddConstant;
          }
      }
    }
  }

  // ------------------------------------------------------------ correctness

  // Columns are taken K at a time and never past the last.
  predicate OnGrid(K: nat, col: nat)
    requires K > 0
  {
    col < 64 && col + StepsTo(64, K, col) * K == 64
  }

  predicate Busy(K: nat, r: Serial)
  {
    && ColumnsPerCycle(K) && r.st != Idle && r.idx < 16
    && (r.st == Sbox ==> OnGrid(K, r.col))
  }

  // The permutation still owed to the registers.
  function Owed(K: nat, r: Serial): State
    requires Busy(K, r)
  {
    match r.st
    case AddConstant => RoundsFrom(r.s, r.idx)
    case Sbox => RoundsFrom(PL(Finish(r.s, r.col)), r.idx + 1)
    case Linear => RoundsFrom(PL(r.s), r.idx + 1)
  }

  function RoundCycles(K: nat): (c: nat)
    requires ColumnsPerCycle(K)
  {
    2 + StepsTo(64, K, 0)
  }

  // The edges still needed.
  function Left(K: nat, r: Serial): nat
    requires Busy(K, r)
  {
    Total(15 - r.idx, RoundCycles(K)) +
    match r.st
    case AddConstant => RoundCycles(K)
    case Sbox => 1 + StepsTo(64, K, r.col)
    case Linear => 1
  }

  lemma {:induction false} ChunkFinishes(o: State, base: nat, m: nat, K: nat)
    requires m <= K && base + K <= 64
    ensures Finish(SboxChunk(o, base, m, K), base + K) == Finish(o, base + m)
    decreases K - m
  {
    hide Finish, SubstituteAt;
    if m < K {
      FinishStep(o, base + m);
      ChunkFinishes(SubstituteAt(o, base + m), base, m + 1, K);
    }
  }

  lemma GridStarts(K: nat)
    requires ColumnsPerCycle(K)
    ensures OnGrid(K, 0)
  {
    StepsToIsCeiling(64, K, 0);
    var c := StepsTo(64, K, 0);
    if K == 1 {
      assert c * 1 == 64;
    } else if K == 2 {
      assert c * 2 == 64;
    } else if K == 4 {
      assert c * 4 == 64;
    } else if K == 8 {
      assert c * 8 == 64;
    } else if K == 16 {
      assert c * 16 == 64;
    } else {
      assert c * 32 == 64;
    }
  }

  lemma GridAdvances(K: nat, col: nat)
    requires ColumnsPerCycle(K) && OnGrid(K, col)
    ensures col + K <= 64
    ensures col + K < 64 ==> OnGrid(K, col + K) && StepsTo(64, K, col + K) == StepsTo(64, K, col) - 1
    ensures col + K >= 64 ==> StepsTo(64, K, col) == 1
  {
    var c := StepsTo(64, K, col);
    if col + K < 64 {
      assert c * K == (c - 1) * K + K;
    }
  }

  // Each edge keeps what is owed and uses up one of the edges left.
  predicate Progress(K: nat, r: Serial, r': Serial)
    requires Busy(K, r)
  {
    if Left(K, r) == 1 then r'.st == Idle && r'.validO && r'.stateO == Owed(K, r)
    else Busy(K, r') && !r'.validO && Owed(K, r') == Owed(K, r) && Left(K, r') == Left(K, r) - 1
  }

  lemma ConstantStep(K: nat, r: Serial, i: Inputs)
    requires Busy(K, r) && r.st == AddConstant
    ensures Progress(K, r, Next(K, r, i))
  {
    hide PC, PL, SboxChunk, Finish, PS, StepsTo;
    FinishNone(PC(r.s, r.idx));
    GridStarts(K);
    assert RoundsFrom(r.s, r.idx) == RoundsFrom(Round(r.s, r.idx), r.idx + 1);
  }

  lemma SboxStep(K: nat, r: Serial, i: Inputs)
    requires Busy(K, r) && r.st == Sbox
    ensures Progress(K, r, Next(K, r, i))
  {
    hide RoundsFrom, PC, PL, SboxChunk, Finish, PS, StepsTo;
    GridAdvances(K, r.col);
    ChunkFinishes(r.s, r.col, 0, K);
    FinishAll(SboxChunk(r.s, r.col, 0, K));
  }

  lemma LinearStep(K: nat, r: Serial, i: Inputs)
    requires Busy(K, r) && r.st == Linear
    ensures Progress(K, r, Next(K, r, i))
  {
    hide Round, PC, PL, SboxChunk, Finish, PS, StepsTo;
  }

  lemma BusyStep(K: nat, r: Serial, i: Inputs)
    requires Busy(K, r)
    ensures Progress(K, r, Next(K, r, i))
  {
    hide Progress, Next;
    match r.st {
      case AddConstant => ConstantStep(K, r, i);
      case Sbox => SboxStep(K, r, i);
      case Linear => LinearStep(K, r, i);
    }
  }

  function Run(K: nat, r: Serial, ins: seq<Inputs>): Serial
    requires InRange(r)
    decreases |ins|
  {
    if |ins| == 0 then r else Run(K, Next(K, r, ins[0]), ins[1..])
  }

  lemma {:induction false} RunBusy(K: nat, r: Serial, ins: seq<Inputs>)
    requires Busy(K, r) && 0 < |ins| <= Left(K, r)
    ensures var last := Run(K, r, ins);
            last.validO == (|ins| == Left(K, r)) && (last.validO ==> last.stateO == Owed(K, r))
    decreases |ins|
  {
    hide Next, Owed, Left;
    BusyStep(K, r, ins[0]);
    var r1 := Next(K, r, ins[0]);
    if |ins| > 1 {
      RunBusy(K, r1, ins[1..]);
    } else {
      assert Run(K, r, ins) == r1;
    }
  }

  // For every chunk width the core delivers the selected permutation in exactly
  // 2 + c edges a round, where c * K == 64, whatever its inputs do once it has been started.
  lemma ColumnSerialComputesPermutation(K: nat, r: Serial, ins: seq<Inputs>)
    requires ColumnsPerCycle(K) && r.st == Idle
    requires |ins| > 0 && ins[0].start && ins[0].rounds < 3
    requires |ins| <= 1 + RoundCount(ins[0].rounds) * (2 + StepsTo(64, K, 0))
    ensures var n := RoundCount(ins[0].rounds);
            var c := StepsTo(64, K, 0);
            var last := Run(K, r, ins);
            && c * K == 64
            && last.validO == (|ins| == 1 + n * (2 + c))
            && (last.validO ==> last.stateO == Permute(ins[0].state, n))
  {
    hide RoundsFrom, PC, PL, SboxChunk, StepsTo;
    GridStarts(K);
    TotalIsProduct(RoundCount(ins[0].rounds), RoundCycles(K));
    var r1 := Next(K, r, ins[0]);
    if |ins| > 1 {
      RunBusy(K, r1, ins[1..]);
    } else {
      assert Run(K, r, ins) == r1;
    }
  }
}
