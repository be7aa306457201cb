// The bit-serial permutation core: one S-box column, then one bit of each word
// of the linear layer, per clock.
module BitSerialPermutation {
  import opened BitVectors
  import opened Permutation
  import opened ColumnStep
  import opened PermutationPort

  datatype Phase = Idle | AddConstant | Sbox | Linear | Swap

  datatype Serial = Serial(s: State, t: State, idx: nat, j: nat, st: Phase, stateO: State, validO: bool)

  // One bit of word w after diffusion; the index sums are truncated to six bits.
  function LinearBit(s: State, w: nat, j: nat, r1: nat, r2: nat): bool
    requires w < 5 && j < 64 && r1 < 64 && r2 < 64
  {
    (s[64 * w + j] != s[64 * w + Wrap(j + r1)]) != s[64 * w + Wrap(j + r2)]
  }

  function LinearAt(s: State, t: State, j: nat): State
    requires j < 64
  {
    t[j := LinearBit(s, 0, j, 19, 28)][64 + j := LinearBit(s, 1, j, 61, 39)][128 + j := LinearBit(s, 2, j, 1, 6)]
     [192 + j := LinearBit(s, 3, j, 10, 17)][256 + j := LinearBit(s, 4, j, 7, 41)]
  }

  predicate InRange(r: Serial)
  {
    r.st != Idle ==> r.idx < 16
  }

  // j is seven bits wide and j6 its low six.
  function Next(r: Serial, i: Inputs): (r': Serial)
    requires InRange(r)
    ensures InRange(r')
  {
    hide PC, PL, SubstituteAt, LinearAt;
    match r.st
    case Idle =>
      if i.start
      then r.(s := i.state, idx := StartIndex(i.rounds), j := 0, validO := false,
              st := if StartIndex(i.rounds) >= DONE then Idle else AddConstant)
      else r.(validO := false)
    case AddConstant =>
      r.(s := PC(r.s, r.idx), j := 0, st := Sbox, validO := false)
    case Sbox =>
      var s := SubstituteAt(r.s, r.j % 64);
      if r.j == 63 then r.(s := s, j := 0, st := Linear, validO := false)
      else r.(s := s, j := (r.j + 1) % 128, validO := false)
    case Linear =>
      var t := LinearAt(r.s, r.t, r.j % 64);
      if r.j == 63 then r.(t := t, j := 0, st := Swap, validO := false)
      else r.(t := t, j := (r.j + 1) % 128, validO := false)
    case Swap =>
      if (r.idx + 1) % 32 >= DONE then r.(s := r.t, stateO := r.t, validO := true, st := Idle)
      else r.(s := r.t, idx := (r.idx + 1) % 32, j := 0, st := AddConstant, validO := false)
  }

  class Core {
    var s: State
    var t: State
    var idx: nat
    var j: nat
    var st: Phase
    var stateO: State
    var validO: bool

    function Registers(): Serial
      reads this
    {
      Serial(s, t, idx, j, st, stateO, validO)
    }

    constructor ()
      ensures Registers() == Serial(Zeros(320), Zeros(320), DONE, 0, Idle, Zeros(320), false)
    {
      st, validO, idx, j := Idle, false, DONE, 0;
      s, t, stateO := Zeros(320), Zeros(320), Zeros(320);
    }

    method Step(i: Inputs)
      requires InRange(Registers())
      modifies this
      ensures Registers() == Next(old(Registers()), i)
      ensures InRange(Registers())
    {
      hide PC, SubstituteAt, LinearAt;
      validO := false;
      match st {
        case Idle =>
          if i.start {
            s := i.state;
            idx := StartIndex(i.rounds);
            j := 0;
            st := if StartIndex(i.rounds) >= DONE then Idle else AddConstant;
          }
        case AddConstant =>
          s := PC(s, idx);
          j := 0;
          st := Sbox;
        case Sbox =>
          s := SubstituteAt(s, j % 64);
          if j == 63 {
            j := 0;
            st := Linear;
          } else {
            j := (j + 1) % 128;
          }
        case Linear =>
          t := LinearAt(s, t, j % 64);
          if j == 63 {
            j := 0;
            st := Swap;
          } else {
            j := (j + 1) % 128;
          }
        case Swap =>
          s := t;
          if (idx + 1) % 32 >= DONE {
            stateO := t;
            validO := true;
            st := Idle;
          } else {
            idx := (idx + 1) % 32;
            j := 0;
            st := AddConstant;
          }
      }
    }
  }

  // ------------------------------------------------------------ correctness

  // Bits below j of every word of t are already diffused.
  ghost predicate DiffusedBelow(s: State, t: State, j: nat)
  {
    forall i: nat {:trigger ColumnAt(t, i)} :: i < j && i < 64 ==> ColumnAt(t, i) == ColumnAt(PL(s), i)
  }

  ghost predicate Busy(r: Serial)
  {
    && r.st != Idle && r.idx < 16
    && (r.st == Sbox || r.st == Linear ==> r.j < 64)
    && (r.st == Linear ==> DiffusedBelow(r.s, r.t, r.j))
  }

  // The permutation still owed to the registers.
  function Owed(r: Serial): State
    requires r.st != Idle && r.idx < 16
  {
    match r.st
    case AddConstant => RoundsFrom(r.s, r.idx)
    case Sbox => RoundsFrom(PL(Finish(r.s, r.j)), r.idx + 1)
    case Linear => RoundsFrom(PL(r.s), r.idx + 1)
    case Swap => RoundsFrom(r.t, r.idx + 1)
  }

  // The edges still needed.
  function Left(r: Serial): int
    requires r.st != Idle && r.idx < 16
  {
    130 * (15 - r.idx) +
    match r.st
    case AddConstant => 130
    case Sbox => (64 - r.j) + 65
    case Linear => (64 - r.j) + 1
    case Swap => 1
  }

  lemma SigmaOfSlice(s: State, w: nat, j: nat, r1: nat, r2: nat)
    requires w < 5 && j < 64 && r1 < 64 && r2 < 64
    ensures Sigma(s[64 * w..64 * w + 64], r1, r2)[j] == LinearBit(s, w, j, r1, r2)
  {
    hide Sigma;
    SigmaBit(s[64 * w..64 * w + 64], r1, r2, j);
  }

  lemma WordsOfPL(s: State, j: nat)
    requires j < 64
    ensures ColumnAt(PL(s), j) == Column(Sigma(Word0(s), 19, 28)[j], Sigma(Word1(s), 61, 39)[j],
                                         Sigma(Word2(s), 1, 6)[j], Sigma(Word3(s), 10, 17)[j],
                                         Sigma(Word4(s), 7, 41)[j])
  {
    hide Sigma;
  }

  lemma LinearColumn(s: State, j: nat)
    requires j < 64
    ensures ColumnAt(PL(s), j) == Column(LinearBit(s, 0, j, 19, 28), LinearBit(s, 1, j, 61, 39),
                                         LinearBit(s, 2, j, 1, 6), LinearBit(s, 3, j, 10, 17),
                                         LinearBit(s, 4, j, 7, 41))
  {
    hide Sigma, LinearBit, ColumnAt, PL;
    WordsOfPL(s, j);
    SigmaOfSlice(s, 0, j, 19, 28);
    SigmaOfSlice(s, 1, j, 61, 39);
    SigmaOfSlice(s, 2, j, 1, 6);
    SigmaOfSlice(s, 3, j, 10, 17);
    SigmaOfSlice(s, 4, j, 7, 41);
  }

  lemma LinearAtColumn(s: State, t: State, k: nat, j: nat)
    requires j < 64 && k < 64
    ensures ColumnAt(LinearAt(s, t, k), j) == if j == k then ColumnAt(PL(s), j) else ColumnAt(t, j)
  {
    hide LinearBit, PL;
    LinearColumn(s, k);
  }

  lemma DiffuseNext(s: State, t: State, j: nat)
    requires j < 64 && DiffusedBelow(s, t, j)
    ensures DiffusedBelow(s, LinearAt(s, t, j), j + 1)
  {
    hide LinearAt, PL;
    forall i: nat | i < j + 1
      ensures ColumnAt(LinearAt(s, t, j), i) == ColumnAt(PL(s), i)
    {
      LinearAtColumn(s, t, j, i);
    }
  }

  lemma DiffusedAll(s: State, t: State)
    requires DiffusedBelow(s, t, 64)
    ensures t == PL(s)
  {
    hide PL;
    StatesEqualByColumns(t, PL(s));
  }

  // Each edge keeps what is owed and uses up one of the edges left.
  ghost predicate Progress(r: Serial, r': Serial)
    requires Busy(r)
  {
    if Left(r) == 1 then r'.st == Idle && r'.validO && r'.stateO == Owed(r)
    else Busy(r') && !r'.validO && Owed(r') == Owed(r) && Left(r') == Left(r) - 1
  }

  lemma ConstantStep(r: Serial, i: Inputs)
    requires Busy(r) && r.st == AddConstant
    ensures Progress(r, Next(r, i))
  {
    hide PC, PL, Finish, PS;
    FinishNone(PC(r.s, r.idx));
    assert RoundsFrom(r.s, r.idx) == RoundsFrom(Round(r.s, r.idx), r.idx + 1);
  }

  lemma SboxStep(r: Serial, i: Inputs)
    requires Busy(r) && r.st == Sbox
    ensures Progress(r, Next(r, i))
  {
    hide RoundsFrom, PL, SubstituteAt, Finish;
    assert r.j % 64 == r.j && (r.j + 1) % 128 == r.j + 1;
    FinishStep(r.s, r.j);
    FinishAll(SubstituteAt(r.s, r.j));
  }

  lemma LinearStep(r: Serial, i: Inputs)
    requires Busy(r) && r.st == Linear
    ensures Progress(r, Next(r, i))
  {
    hide RoundsFrom, PL, LinearAt, DiffusedBelow;
    assert r.j % 64 == r.j && (r.j + 1) % 128 == r.j + 1;
    DiffuseNext(r.s, r.t, r.j);
    if r.j == 63 {
      DiffusedAll(r.s, LinearAt(r.s, r.t, r.j));
    }
  }

  lemma SwapStep(r: Serial, i: Inputs)
    requires Busy(r) && r.st == Swap
    ensures Progress(r, Next(r, i))
  {
    hide Round;
  }

  lemma BusyStep(r: Serial, i: Inputs)
    requires Busy(r)
    ensures Progress(r, Next(r, i))
  {
    hide Progress, Next;
    match r.st {
      case AddConstant => ConstantStep(r, i);
      case Sbox => SboxStep(r, i);
      case Linear => LinearStep(r, i);
      case Swap => SwapStep(r, i);
    }
  }

  function Run(r: Serial, ins: seq<Inputs>): Serial
    requires InRange(r)
    decreases |ins|
  {
    if |ins| == 0 then r else Run(Next(r, ins[0]), ins[1..])
  }

  lemma {:induction false} RunBusy(r: Serial, ins: seq<Inputs>)
    requires Busy(r) && 0 < |ins| <= Left(r)
    ensures var last := Run(r, ins);
            last.validO == (|ins| == Left(r)) && (last.validO ==> last.stateO == Owed(r))
    decreases |ins|
  {
    hide Next, Owed, Left, DiffusedBelow;
    BusyStep(r, ins[0]);
    var r1 := Next(r, ins[0]);
    if |ins| > 1 {
      RunBusy(r1, ins[1..]);
    } else {
      assert Run(r, ins) == r1;
    }
  }

  // The core delivers the selected permutation in exactly 130 edges a round,
  // whatever its inputs do once it has been started.
  lemma BitSerialComputesPermutation(r: Serial, ins: seq<Inputs>)
    requires r.st == Idle
    requires |ins| > 0 && ins[0].start && ins[0].rounds < 3
    requires |ins| <= 1 + 130 * RoundCount(ins[0].rounds)
    ensures var n := RoundCount(ins[0].rounds);
            var last := Run(r, ins);
            last.validO == (|ins| == 1 + 130 * n) && (last.validO ==> last.stateO == Permute(ins[0].state, n))
  {
    hide RoundsFrom, PC, PL, SubstituteAt, LinearAt, DiffusedBelow;
    var r1 := Next(r, ins[0]);
    if |ins| > 1 {
      RunBusy(r1, ins[1..]);
    } else {
      assert Run(r, ins) == r1;
    }
  }
}
