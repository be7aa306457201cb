// Division with remainder.
module Arithmetic {
  lemma DivisionMeans(a: int, r: nat)
    requires r > 0
    ensures a == a / r * r + a % r && 0 <= a % r < r
  {
  }

  lemma Distribute(c: int, d: int, r: int)
    ensures (c - d) * r == c * r - d * r
  {
  }

  lemma AtLeast(c: nat, r: nat)
    requires c > 0
    ensures c * r >= r
  {
  }

  lemma DivisionUnique(a: int, r: nat, q: int, m: nat)
    requires r > 0 && a == q * r + m && m < r
    ensures a / r == q && a % r == m
  {
    var d := a / r;
    DivisionMeans(a, r);
    Distribute(q, d, r);
    Distribute(d, q, r);
    if q > d {
      AtLeast(q - d, r);
    } else if q < d {
      AtLeast(d - q, r);
    }
  }
}
