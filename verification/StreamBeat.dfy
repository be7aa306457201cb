// A 32-bit stream beat with its sidebands.
module StreamBeat {
  import opened BitVectors

  // keep marks the valid bytes, user tells message from associated data.
  datatype Beat = Beat(data: Bits, keep: seq<bool>, user: bool, last: bool, valid: bool)

  function KeepMask(n: nat): (r: seq<bool>)
    ensures |r| == 4
  {
    match n
    case 0 => [false, false, false, false]
    case 1 => [true, false, false, false]
    case 2 => [true, true, false, false]
    case 3 => [true, true, true, false]
    case _ => [true, true, true, true]
  }
}
