/** Exclusive or on the non-negative integers that the encoders keep in their Int arrays. */
module BitXor {

  /** Bitwise exclusive or, one binary digit at a time. */
  function Xor(a: nat, b: nat): nat {
    if a == 0 && b == 0 then 0
    else 2 * Xor(a / 2, b / 2) + (if a % 2 == b % 2 then 0 else 1)
  }

  predicate PowerOfTwo(p: nat) {
    p == 1 || (p > 1 && p % 2 == 0 && PowerOfTwo(p / 2))
  }

  lemma XorHalf(a: nat, b: nat)
    ensures Xor(a, b) / 2 == Xor(a / 2, b / 2)
    ensures Xor(a, b) % 2 == (if a % 2 == b % 2 then 0 else 1)
  {}

  lemma {:induction false} XorComm(a: nat, b: nat)
    ensures Xor(a, b) == Xor(b, a)
  {
    if a != 0 || b != 0 { XorComm(a / 2, b / 2); }
  }

  lemma {:induction false} XorZero(a: nat)
    ensures Xor(a, 0) == a && Xor(0, a) == a
  {
    if a != 0 { XorZero(a / 2); }
  }

  lemma {:induction false} XorSelf(a: nat)
    ensures Xor(a, a) == 0
  {
    if a != 0 { XorSelf(a / 2); }
  }

  lemma {:induction false} XorAssoc(a: nat, b: nat, c: nat)
    ensures Xor(Xor(a, b), c) == Xor(a, Xor(b, c))
  {
    if a != 0 || b != 0 || c != 0 {
      XorAssoc(a / 2, b / 2, c / 2);
      XorHalf(a, b); XorHalf(b, c); XorHalf(Xor(a, b), c); XorHalf(a, Xor(b, c));
    }
  }

  lemma XorSwap(p: nat, q: nat, r: nat, s: nat)
    ensures Xor(Xor(p, q), Xor(r, s)) == Xor(Xor(p, r), Xor(q, s))
  {
    XorAssoc(p, q, Xor(r, s)); XorAssoc(q, r, s); XorComm(q, r); XorAssoc(r, q, s); XorAssoc(p, r, Xor(q, s));
  }

  lemma XorCancel(a: nat, b: nat)
    ensures Xor(Xor(a, b), b) == a
  {
    XorAssoc(a, b, b); XorSelf(b); XorZero(a);
  }

  lemma XorDouble(a: nat, b: nat)
    ensures Xor(2 * a, 2 * b) == 2 * Xor(a, b)
  {
    XorHalf(2 * a, 2 * b);
  }

  /** Below twice a power of two the result stays there, and its top bit is the exclusive or of the top bits. */
  lemma {:induction false} XorTop(a: nat, b: nat, p: nat)
    requires PowerOfTwo(p) && a < 2 * p && b < 2 * p
    ensures Xor(a, b) < 2 * p
    ensures Xor(a, b) < p <==> (a < p <==> b < p)
  {
    if p > 1 {
      XorTop(a / 2, b / 2, p / 2);
      XorHalf(a, b);
    } else {
      assert Xor(a, b) == if a == b then 0 else 1;
    }
  }
}
