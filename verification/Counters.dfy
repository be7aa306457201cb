// Counting the clock edges of a register that advances by a stride.
module Counters {

  // Edges until a counter at `at`, advancing by `stride`, would reach `limit`.
  function StepsTo(limit: nat, stride: nat, at: nat): (c: nat)
    requires stride > 0
    ensures c > 0
    decreases limit - at, stride
  {
    if at + stride >= limit then 1 else 1 + StepsTo(limit, stride, at + stride)
  }

  lemma {:induction false} StepsToIsCeiling(limit: nat, stride: nat, at: nat)
    requires stride > 0 && at < limit
    ensures (StepsTo(limit, stride, at) - 1) * stride < limit - at <= StepsTo(limit, stride, at) * stride
    decreases limit - at
  {
    if at + stride < limit {
      StepsToIsCeiling(limit, stride, at + stride);
    }
  }

  // n phases of `each` edges.
  function Total(n: nat, each: nat): nat
    decreases n, each
  {
    if n == 0 then 0 else each + Total(n - 1, each)
  }

  lemma {:induction false} TotalIsProduct(n: nat, each: nat)
    ensures Total(n, each) == n * each
    decreases n
  {
    if n > 0 {
      TotalIsProduct(n - 1, each);
    }
  }

  // Eight-bit subtraction.
  function Rem(len: nat, off: nat): (r: nat)
    ensures r < 256
  {
    (len - off) % 256
  }

  lemma RemIsRest(len: nat, off: nat)
    requires off <= len < 256
    ensures Rem(len, off) == len - off
  {
  }
}
