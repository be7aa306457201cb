// How a controller calls its permutation core: it pulses start with the state
// and the round selection, waits, and takes the result over when it is valid.
module PermutationCall {
  import opened BitVectors
  import opened Permutation
  import opened Counters
  import opened PermutationPort
  import Perm = IterativePermutation

  // The controller's side of the port, and the registers of the core.
  datatype Call = Call(start: bool, rounds: nat, s: State, perm: Perm.Regs)

  // The core's registers after one more edge.
  function Clocked(R: nat, c: Call): Perm.Regs
  {
    Perm.Next(R, c.perm, PermutationPort.Inputs(c.start, c.rounds, c.s))
  }

  // The core has nothing in flight.
  predicate Quiet(c: Call)
  {
    !c.start && !c.perm.running && !c.perm.validO
  }

  // Exactly one of: a start pulse, a run, a result.
  predicate InFlight(c: Call)
  {
    && (c.start ==> !c.perm.running && !c.perm.validO && c.rounds < 3)
    && (c.perm.running ==> !c.perm.validO && Perm.Valid(c.perm))
    && (c.start || c.perm.running || c.perm.validO)
  }

  // The state that the call will return.
  function Returned(c: Call): State
    requires InFlight(c)
  {
    if c.start then Permute(c.s, RoundCount(c.rounds))
    else if c.perm.validO then c.perm.stateO
    else Perm.Pending(c.perm)
  }

  // Edges that a whole call of n rounds takes.
  function Dwell(R: nat, n: nat): nat
    requires R > 0 && n <= 16
  {
    2 + StepsTo(16, R, 16 - n)
  }

  // Edges until the controller has taken the result over.
  function EdgesLeft(R: nat, c: Call): (n: nat)
    requires R > 0
    ensures n > 0
  {
    if c.start then Dwell(R, RoundCount(c.rounds))
    else if c.perm.validO then 1
    else 1 + StepsTo(16, R, c.perm.idx)
  }

  lemma Rests(R: nat, c: Call)
    requires Quiet(c)
    ensures Clocked(R, c) == c.perm
  {
    hide Perm.Stages;
  }

  // Until the result is there, each edge keeps it and brings it one edge nearer.
  lemma Waits(R: nat, c: Call)
    requires 0 < R <= 12 && InFlight(c) && !c.perm.validO
    ensures var c' := c.(start := false, perm := Clocked(R, c));
            InFlight(c') && Returned(c') == Returned(c) && EdgesLeft(R, c') == EdgesLeft(R, c) - 1
  {
    hide Permute, Perm.Pending, Perm.Next, StepsTo;
    var i := PermutationPort.Inputs(c.start, c.rounds, c.s);
    if c.start {
      Perm.Started(R, c.perm, i);
    } else {
      Perm.Running(R, c.perm, i);
    }
  }

  // The result is there for one edge.
  lemma Ends(R: nat, c: Call)
    requires InFlight(c) && c.perm.validO
    ensures Quiet(c.(start := false, perm := Clocked(R, c)))
  {
    hide Perm.Stages;
  }
}
