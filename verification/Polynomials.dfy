/** Polynomials over GF(256) as byte sequences, read in either coefficient order. */
module Polynomials {
  import opened GaloisField

  type Poly = seq<Byte>

  function Zeros(n: nat): (z: Poly)
    ensures |z| == n && forall i :: 0 <= i < n ==> z[i] == 0
  {
    seq(n, i => 0)
  }

  /** Coefficient-wise sum. */
  function Sum(p: Poly, q: Poly): (s: Poly)
    requires |p| == |q|
    ensures |s| == |p| && forall i :: 0 <= i < |p| ==> s[i] == Add(p[i], q[i])
  {
    seq(|p|, i requires 0 <= i < |p| => Add(p[i], q[i]))
  }

  function Scale(p: Poly, c: Byte): (s: Poly)
    ensures |s| == |p| && forall i :: 0 <= i < |p| ==> s[i] == Mul(p[i], c)
  {
    seq(|p|, i requires 0 <= i < |p| => Mul(p[i], c))
  }

  /** Product of q and g, both with the leading coefficient first: the schoolbook convolution. */
  function Times(q: Poly, g: Poly): (r: Poly)
    requires |g| > 0
    ensures |r| == |q| + |g| - 1
  {
    if q == [] then Zeros(|g| - 1)
    else Sum(Scale(g, q[0]) + Zeros(|q| - 1), [0] + Times(q[1..], g))
  }

  /** Value at x, leading coefficient first. */
  function EvalHigh(p: Poly, x: Byte): Byte {
    if p == [] then 0 else Add(Mul(EvalHigh(p[..|p| - 1], x), x), p[|p| - 1])
  }

  /** Value at x, lowest coefficient first. */
  function EvalLow(p: Poly, x: Byte): Byte {
    if p == [] then 0 else Add(p[0], Mul(EvalLow(p[1..], x), x))
  }

  /** x to the n-th power. */
  function Power(x: Byte, n: nat): Byte {
    if n == 0 then 1 else Mul(Power(x, n - 1), x)
  }

  lemma {:induction false} EvalHighZeros(n: nat, x: Byte)
    ensures EvalHigh(Zeros(n), x) == 0
  {
    if n > 0 {
      assert Zeros(n)[..n - 1] == Zeros(n - 1);
      EvalHighZeros(n - 1, x);
      MulZeroLeft(x); AddLaws(0, 0);
    }
  }

  lemma {:induction false} EvalHighSum(p: Poly, q: Poly, x: Byte)
    requires |p| == |q|
    ensures EvalHigh(Sum(p, q), x) == Add(EvalHigh(p, x), EvalHigh(q, x))
  {
    hide Mul, Add;
    if p == [] {
      AddLaws(0, 0);
    } else {
      var n := |p| - 1;
      assert Sum(p, q)[..n] == Sum(p[..n], q[..n]);
      EvalHighSum(p[..n], q[..n], x);
      var a, b := EvalHigh(p[..n], x), EvalHigh(q[..n], x);
      MulAddLeft(a, b, x);
      AddSwap(Mul(a, x), Mul(b, x), p[n], q[n]);
    }
  }

  lemma {:induction false} EvalHighScale(p: Poly, c: Byte, x: Byte)
    ensures EvalHigh(Scale(p, c), x) == Mul(EvalHigh(p, x), c)
  {
    hide Mul, Add;
    if p == [] {
      MulZeroLeft(c);
    } else {
      var n := |p| - 1;
      assert Scale(p, c)[..n] == Scale(p[..n], c);
      EvalHighScale(p[..n], c, x);
      var a := EvalHigh(p[..n], x);
      MulAssoc(a, c, x); MulComm(c, x); MulAssoc(a, x, c);
      MulAddLeft(Mul(a, x), p[n], c);
    }
  }

  /** Appending n zeros multiplies by x^n. */
  lemma {:induction false} EvalHighShift(p: Poly, n: nat, x: Byte)
    ensures EvalHigh(p + Zeros(n), x) == Mul(EvalHigh(p, x), Power(x, n))
  {
    hide Mul, Add;
    var a := EvalHigh(p, x);
    if n == 0 {
      assert p + Zeros(0) == p;
      MulComm(a, 1); MulOneLeft(a);
    } else {
      assert (p + Zeros(n))[..|p| + n - 1] == p + Zeros(n - 1);
      EvalHighShift(p, n - 1, x);
      MulAssoc(a, Power(x, n - 1), x);
      AddLaws(Mul(EvalHigh(p + Zeros(n - 1), x), x), 0);
    }
  }

  lemma {:induction false} EvalHighPrepend(c: Byte, p: Poly, x: Byte)
    ensures EvalHigh([c] + p, x) == Add(Mul(c, Power(x, |p|)), EvalHigh(p, x))
  {
    hide Mul, Add;
    var n := |p|;
    assert [c] + p == Sum([c] + Zeros(n), [0] + p) by {
      forall i | 0 <= i < n + 1 ensures ([c] + p)[i] == Sum([c] + Zeros(n), [0] + p)[i] {
        AddLaws(c, 0); AddLaws(([0] + p)[i], 0);
      }
    }
    EvalHighSum([c] + Zeros(n), [0] + p, x);
    EvalHighShift([c], n, x);
    assert EvalHigh([c], x) == c by { assert [c][..0] == []; MulZeroLeft(x); AddLaws(c, 0); }
    EvalHighLeadingZero(p, x);
  }

  lemma {:induction false} EvalHighLeadingZero(p: Poly, x: Byte)
    ensures EvalHigh([0] + p, x) == EvalHigh(p, x)
  {
    hide Mul, Add;
    if p == [] {
      assert [0] + p == Zeros(1);
      EvalHighZeros(1, x);
    } else {
      var n := |p| - 1;
      assert ([0] + p)[..n + 1] == [0] + p[..n];
      EvalHighLeadingZero(p[..n], x);
    }
  }

  /** Evaluation is multiplicative, so Times is the polynomial product. */
  lemma {:induction false} EvalHighTimes(q: Poly, g: Poly, x: Byte)
    requires |g| > 0
    ensures EvalHigh(Times(q, g), x) == Mul(EvalHigh(q, x), EvalHigh(g, x))
    decreases |q|
  {
    hide Mul, Add;
    var v := EvalHigh(g, x);
    if q == [] {
      EvalHighZeros(|g| - 1, x); MulZeroLeft(v);
    } else {
      var c, rest, m := q[0], q[1..], |q| - 1;
      EvalHighSum(Scale(g, c) + Zeros(m), [0] + Times(rest, g), x);
      EvalHighShift(Scale(g, c), m, x);
      EvalHighScale(g, c, x);
      EvalHighLeadingZero(Times(rest, g), x);
      EvalHighTimes(rest, g, x);
      MulAssoc(v, c, Power(x, m)); MulComm(v, Mul(c, Power(x, m)));
      MulAddLeft(Mul(c, Power(x, m)), EvalHigh(rest, x), v);
      EvalHighPrepend(c, rest, x);
      assert q == [c] + rest;
    }
  }

  lemma {:induction false} PowerExp(i: nat, n: nat)
    ensures Power(Exp(i), n) == Exp(i * n)
  {
    hide Mul;
    if n > 0 {
      PowerExp(i, n - 1);
      MulExp(i * (n - 1), i);
      assert i * (n - 1) + i == i * n;
    }
  }

  /** Reading a polynomial in the other order evaluates it at the inverse point, up to a power. */
  lemma {:induction false} EvalReversed(p: Poly, x: Byte, y: Byte)
    requires p != [] && Mul(x, y) == 1
    ensures EvalHigh(p, x) == Mul(Power(x, |p| - 1), EvalLow(p, y))
    decreases |p|
  {
    hide Mul, Add;
    var n := |p| - 1;
    if n == 0 {
      assert p == [p[0]] && p[1..] == [] && p[..0] == [];
      MulZeroLeft(x); MulZeroLeft(y); AddLaws(p[0], 0); MulOneLeft(p[0]);
    } else {
      var rest := p[1..];
      var e, w := EvalLow(rest, y), Power(x, n - 1);
      assert p == [p[0]] + rest;
      EvalHighPrepend(p[0], rest, x);
      EvalReversed(rest, x, y);
      var z := Power(x, n);
      MulAddRight(z, p[0], Mul(e, y));
      MulComm(z, p[0]);
      assert Mul(z, Mul(e, y)) == Mul(w, e) by {
        MulComm(e, y); MulAssoc(w, x, Mul(y, e)); MulAssoc(x, y, e); MulOneLeft(e);
      }
    }
  }
}
