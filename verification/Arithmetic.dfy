/** Division with remainder, for the index computations of the other modules. */
module Arithmetic {

  lemma Distribute(b: nat, k: nat, d: nat)
    ensures (b + k) * d == b * d + k * d
  {}

  lemma AtLeastOnce(k: nat, d: nat)
    requires k > 0
    ensures k * d >= d
  {}

  lemma LaterMultiple(a: nat, b: nat, d: nat)
    requires a > b
    ensures a * d >= b * d + d
  {
    Distribute(b, a - b, d);
    AtLeastOnce(a - b, d);
  }

  /** Quotient and remainder are unique. */
  lemma UniqueRemainder(value: nat, d: nat, q: nat, r: nat)
    requires d > 0 && r < d && value == q * d + r
    ensures value % d == r && value / d == q
  {
    var q', r' := value / d, value % d;
    assert value == d * q' + r';
    if q > q' { LaterMultiple(q, q', d); }
    if q < q' { LaterMultiple(q', q, d); }
  }
}
