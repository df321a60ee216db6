/** Multiples of a block size. */
module Arith {

  lemma MulMonotone(a: nat, b: nat, d: nat)
    requires a <= b
    ensures a * d <= b * d
  {
  }

  lemma NextChunk(k: nat, last: nat, bs: nat)
    requires k < last
    ensures k * bs + bs <= last * bs
  {
    MulMonotone(k + 1, last, bs);
  }

  lemma DivUnique(x: nat, q: nat, bs: nat)
    requires 0 < bs && q * bs <= x < q * bs + bs
    ensures x / bs == q && x % bs == x - q * bs
  {
    var q' := x / bs;
    assert q' * bs <= x < q' * bs + bs;
    if q' < q { NextChunk(q', q, bs); }
    if q < q' { NextChunk(q, q', bs); }
  }

  lemma DivMonotone(a: nat, b: nat, d: nat)
    requires 0 < d && a <= b
    ensures a / d <= b / d
  {
    assert a == a / d * d + a % d && b == b / d * d + b % d;
    if b / d < a / d {
      NextChunk(b / d, a / d, d);
    }
  }
}
