// The interface that every iterating permutation core presents.
module PermutationPort {
  import opened BitVectors

  const DONE: nat := 16

  // start_i, rounds_i and state_i as sampled at one clock edge.
  datatype Inputs = Inputs(start: bool, rounds: nat, state: State)

  function StartIndex(rounds: nat): (r: nat)
    ensures r <= 16
  {
    match rounds
    case 0 => 10
    case 1 => 8
    case 2 => 4
    case _ => DONE
  }

  // The round count that rounds_i selects.
  function RoundCount(rounds: nat): (r: nat)
    ensures r <= 16
  {
    16 - StartIndex(rounds)
  }
}
