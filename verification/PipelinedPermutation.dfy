// The fully pipelined permutation, one round per stage, with the context tag
// that travels beside it and the lanes that work in parallel.
module PipelinedPermutation {
  import opened BitVectors
  import opened Permutation
  import opened ParsePad

  datatype Input<C> = Input(valid: bool, ctx: C, state: State)

  datatype Stage<C> = Stage(state: State, valid: bool, ctx: C)

  // Stage j applies the round with constant index 16 - n + j.
  function Next<C>(n: nat, p: seq<Stage<C>>, i: Input<C>): (p': seq<Stage<C>>)
    requires 0 < n <= 16 && |p| == n
    ensures |p'| == n
  {
    hide Round;
    seq(n, j requires 0 <= j < n =>
      if j == 0 then Stage(Round(i.state, 16 - n), i.valid, i.ctx)
      else Stage(Round(p[j - 1].state, 16 - n + j), p[j - 1].valid, p[j - 1].ctx))
  }

  class Pipeline<C(0)> {
    const n: nat
    var stage: seq<State>
    var vld: seq<bool>
    var ctxStage: seq<C>

    predicate WellFormed()
      reads this
    {
      0 < n <= 16 && |stage| == n && |vld| == n && |ctxStage| == n
    }

    function Stages(): (p: seq<Stage<C>>)
      requires WellFormed()
      reads this
      ensures |p| == n
    {
      var s, v, c := stage, vld, ctxStage;
      seq(n, j requires 0 <= j < n => Stage(s[j], v[j], c[j]))
    }

    constructor (n: nat, zero: C)
      requires 0 < n <= 16
      ensures this.n == n && WellFormed()
      ensures Stages() == seq(n, _ => Stage(Zeros(320), false, zero))
    {
      this.n := n;
      stage := seq(n, _ => Zeros(320));
      vld := seq(n, _ => false);
      ctxStage := seq(n, _ => zero);
    }

    method Step(i: Input<C>)
      requires WellFormed()
      modifies this
      ensures WellFormed()
      ensures Stages() == Next(n, old(Stages()), i)
    {
      hide Round;
      var s, v, c := stage, vld, ctxStage;
      stage := seq(n, j requires 0 <= j < n => if j == 0 then Round(i.state, 16 - n) else Round(s[j - 1], 16 - n + j));
      vld := [i.valid] + v[..n - 1];
      ctxStage := [i.ctx] + c[..n - 1];
    }
  }

  function Run<C>(n: nat, p: seq<Stage<C>>, ins: seq<Input<C>>): (p': seq<Stage<C>>)
    requires 0 < n <= 16 && |p| == n
    ensures |p'| == n
    decreases |ins|
  {
    if |ins| == 0 then p else Next(n, Run(n, p, ins[..|ins| - 1]), ins[|ins| - 1])
  }

  // Stage j holds the first j + 1 rounds of the input of j edges ago.
  lemma {:induction false} StageHolds<C>(n: nat, p: seq<Stage<C>>, ins: seq<Input<C>>, j: nat)
    requires 0 < n <= 16 && |p| == n && j < n && j < |ins|
    ensures var i := ins[|ins| - 1 - j];
            Run(n, p, ins)[j] == Stage(FirstRounds(i.state, 16 - n, j + 1), i.valid, i.ctx)
    decreases |ins|
  {
    hide Round;
    if j == 0 {
      assert FirstRounds(ins[|ins| - 1].state, 16 - n, 0) == ins[|ins| - 1].state;
    } else {
      StageHolds(n, p, ins[..|ins| - 1], j - 1);
    }
  }

  // A stage that no input has reached yet holds what it held j - |ins| stages up.
  lemma {:induction false} StageDrains<C>(n: nat, p: seq<Stage<C>>, ins: seq<Input<C>>, j: nat)
    requires 0 < n <= 16 && |p| == n && |ins| <= j < n
    ensures Run(n, p, ins)[j].valid == p[j - |ins|].valid
    decreases |ins|
  {
    hide Round;
    if |ins| > 0 {
      StageDrains(n, p, ins[..|ins| - 1], j - 1);
    }
  }

  // What enters at one edge, valid or bubble, leaves n edges later with its
  // context and permuted; until then a pipeline reset to empty shows nothing.
  lemma PipelineDelays<C>(n: nat, p: seq<Stage<C>>, ins: seq<Input<C>>)
    requires 0 < n <= 16 && |p| == n
    requires forall j :: 0 <= j < n ==> !p[j].valid
    ensures var out := Run(n, p, ins)[n - 1];
            if |ins| < n then !out.valid
            else out == Stage(Permute(ins[|ins| - n].state, n), ins[|ins| - n].valid, ins[|ins| - n].ctx)
  {
    hide Round, RoundsFrom, FirstRounds;
    if |ins| < n {
      StageDrains(n, p, ins, n - 1);
    } else {
      StageHolds(n, p, ins, n - 1);
      var s := ins[|ins| - n].state;
      FirstThenRest(s, 16 - n, n);
      RestOfNone(FirstRounds(s, 16 - n, n));
    }
  }

  lemma RestOfNone(s: State)
    ensures RoundsFrom(s, 16) == s
  {
  }

  // ------------------------------------------------------------------ lanes

  // Flattened buses of m lanes with w-bit contexts.
  datatype Buses = Buses(valid: Bits, ctx: Bits, state: Bits)

  predicate Wide(m: nat, w: nat, b: Buses)
  {
    |b.valid| == m && |b.ctx| == m * w && |b.state| == m * 320
  }

  // bus[g*w +: w]
  function Slice(bus: Bits, m: nat, w: nat, g: nat): (r: Bits)
    requires |bus| == m * w && g < m
    ensures |r| == w
  {
    SliceFits(m, w, g);
    bus[g * w..g * w + w]
  }

  lemma SliceFits(m: nat, w: nat, g: nat)
    requires g < m
    ensures 0 <= g * w <= g * w + w <= m * w
  {
    assert m * w == g * w + w + (m - g - 1) * w;
  }

  function Lane(m: nat, w: nat, b: Buses, g: nat): Input<Bits>
    requires Wide(m, w, b) && g < m
  {
    Input(b.valid[g], Slice(b.ctx, m, w, g), Slice(b.state, m, 320, g))
  }

  // The stages of m pipelines, with contexts of w bits.
  predicate Sized(n: nat, m: nat, w: nat, lanes: seq<seq<Stage<Bits>>>)
  {
    && |lanes| == m
    && (forall g :: 0 <= g < m ==> |lanes[g]| == n)
    && (forall g, j :: 0 <= g < m && 0 <= j < n ==> |lanes[g][j].ctx| == w)
  }

  function NextLanes(n: nat, m: nat, w: nat, lanes: seq<seq<Stage<Bits>>>, b: Buses): (l': seq<seq<Stage<Bits>>>)
    requires 0 < n <= 16 && Sized(n, m, w, lanes) && Wide(m, w, b)
    ensures Sized(n, m, w, l')
  {
    hide Round;
    seq(m, g requires 0 <= g < m => Next(n, lanes[g], Lane(m, w, b, g)))
  }

  function RunLanes(n: nat, m: nat, w: nat, lanes: seq<seq<Stage<Bits>>>, ins: seq<Buses>): (l': seq<seq<Stage<Bits>>>)
    requires 0 < n <= 16 && Sized(n, m, w, lanes) && forall k :: 0 <= k < |ins| ==> Wide(m, w, ins[k])
    ensures Sized(n, m, w, l')
    decreases |ins|
  {
    if |ins| == 0 then lanes else NextLanes(n, m, w, RunLanes(n, m, w, lanes, ins[..|ins| - 1]), ins[|ins| - 1])
  }

  // valid_o, ctx_o and state_o: the last stages of all lanes, slice after slice.
  function Outputs(n: nat, m: nat, w: nat, lanes: seq<seq<Stage<Bits>>>): (b: Buses)
    requires 0 < n <= 16 && Sized(n, m, w, lanes)
    ensures Wide(m, w, b)
  {
    var ctxs := seq(m, g requires 0 <= g < m => lanes[g][n - 1].ctx);
    var states := seq(m, g requires 0 <= g < m => lanes[g][n - 1].state);
    FlattenLength(ctxs, w);
    FlattenLength(states, 320);
    Buses(seq(m, g requires 0 <= g < m => lanes[g][n - 1].valid), Flatten(ctxs), Flatten(states))
  }

  lemma {:induction false} SliceOfFlatten(parts: seq<Bits>, w: nat, g: nat)
    requires g < |parts| && forall i :: 0 <= i < |parts| ==> |parts[i]| == w
    ensures |Flatten(parts)| == |parts| * w && Slice(Flatten(parts), |parts|, w, g) == parts[g]
  {
    FlattenLength(parts, w);
    SliceFits(|parts|, w, g);
    if g > 0 {
      SliceOfFlatten(parts[1..], w, g - 1);
      SliceFits(|parts| - 1, w, g - 1);
      assert g * w == w + (g - 1) * w;
    }
  }

  lemma OutputSlice(n: nat, m: nat, w: nat, lanes: seq<seq<Stage<Bits>>>, g: nat)
    requires 0 < n <= 16 && Sized(n, m, w, lanes) && g < m
    ensures var last := lanes[g][n - 1];
            var out := Outputs(n, m, w, lanes);
            out.valid[g] == last.valid && Lane(m, w, out, g) == Input(last.valid, last.ctx, last.state)
  {
    hide Flatten, Slice;
    SliceOfFlatten(seq(m, k requires 0 <= k < m => lanes[k][n - 1].ctx), w, g);
    SliceOfFlatten(seq(m, k requires 0 <= k < m => lanes[k][n - 1].state), 320, g);
  }

  function LaneHistory(m: nat, w: nat, ins: seq<Buses>, g: nat): (h: seq<Input<Bits>>)
    requires g < m && forall k :: 0 <= k < |ins| ==> Wide(m, w, ins[k])
  {
    seq(|ins|, k requires 0 <= k < |ins| => Lane(m, w, ins[k], g))
  }

  // Each lane runs as if it were alone on its slices of the buses.
  lemma {:induction false} LanesIndependent(n: nat, m: nat, w: nat, lanes: seq<seq<Stage<Bits>>>, ins: seq<Buses>,
                                            g: nat)
    requires 0 < n <= 16 && Sized(n, m, w, lanes) && g < m
    requires forall k :: 0 <= k < |ins| ==> Wide(m, w, ins[k])
    ensures RunLanes(n, m, w, lanes, ins)[g] == Run(n, lanes[g], LaneHistory(m, w, ins, g))
    decreases |ins|
  {
    hide Next, Lane, Sized;
    if |ins| > 0 {
      var before := ins[..|ins| - 1];
      LanesIndependent(n, m, w, lanes, before, g);
      var h := LaneHistory(m, w, ins, g);
      assert h[..|ins| - 1] == LaneHistory(m, w, before, g);
    }
  }

  // On the buses: slice g of the outputs is slice g of the inputs of n edges
  // ago, permuted, with its own valid bit and context, whatever the other lanes
  // carry; until then it is not valid.
  lemma BusesDelay(n: nat, m: nat, w: nat, lanes: seq<seq<Stage<Bits>>>, ins: seq<Buses>, g: nat)
    requires 0 < n <= 16 && Sized(n, m, w, lanes) && g < m
    requires forall j :: 0 <= j < n ==> !lanes[g][j].valid
    requires forall k :: 0 <= k < |ins| ==> Wide(m, w, ins[k])
    ensures var out := Outputs(n, m, w, RunLanes(n, m, w, lanes, ins));
            if |ins| < n then !out.valid[g]
            else
              var i := Lane(m, w, ins[|ins| - n], g);
              Lane(m, w, out, g) == Input(i.valid, i.ctx, Permute(i.state, n))
  {
    hide Next, Permute, Lane, Outputs, RunLanes, Run;
    var h := LaneHistory(m, w, ins, g);
    LanesIndependent(n, m, w, lanes, ins, g);
    PipelineDelays(n, lanes[g], h);
    OutputSlice(n, m, w, RunLanes(n, m, w, lanes, ins), g);
  }
}
