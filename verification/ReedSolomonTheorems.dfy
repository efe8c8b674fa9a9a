/** What the Reed-Solomon loops compute: generator roots, the division identity, linearity. */
module ReedSolomonTheorems {
  import opened GaloisField
  import opened Polynomials
  import opened Tables
  import opened ReedSolomon

  // ---- The generator ------------------------------------------------------------------------

  lemma {:induction false} EvalLowTimesRoot(p: Poly, root: Byte, x: Byte)
    ensures EvalLow(TimesRoot(p, root), x) == Mul(EvalLow(p, x), Add(x, root))
  {
    hide Mul, Add;
    var r := TimesRoot(p, root);
    if p == [] {
      assert r == [Add(0, 0)];
      AddLaws(0, 0); MulZeroLeft(x); MulZeroLeft(Add(x, root));
      assert r[1..] == [];
    } else {
      var rest := p[1..];
      var e := EvalLow(rest, x);
      EvalLowTimesRoot(rest, root, x);
      EvalLowStep(p, root, x);
      var c := p[0];
      // r(x) == c*root + x*(c + e*(x + root)), written with the tail of r
      MulAddLeft(c, Mul(e, Add(x, root)), x);
      MulAssoc(e, Add(x, root), x); MulComm(Add(x, root), x); MulAssoc(e, x, Add(x, root));
      MulAddLeft(c, Mul(e, x), Add(x, root));
      MulAddRight(c, x, root);
      var a, b, d := Mul(c, root), Mul(c, x), Mul(Mul(e, x), Add(x, root));
      AddAssoc(a, b, d); AddLaws(a, b);
    }
  }

  /** The value of TimesRoot(p, root), with the lowest coefficient split off. */
  lemma EvalLowStep(p: Poly, root: Byte, x: Byte)
    requires p != []
    ensures EvalLow(TimesRoot(p, root), x)
         == Add(Mul(p[0], root), Mul(Add(p[0], EvalLow(TimesRoot(p[1..], root), x)), x))
  {
    hide Mul, Add;
    var r, rest, c := TimesRoot(p, root), p[1..], p[0];
    var t := TimesRoot(rest, root);
    AddLaws(Mul(c, root), 0);
    assert r[0] == Mul(c, root);
    assert r[1..] == Sum([c] + Zeros(|rest|), t) by {
      forall k | 0 <= k < |t| ensures r[1..][k] == Sum([c] + Zeros(|rest|), t)[k] {
        if k == 0 {
          AddLaws((Scale(rest, root) + [0])[0], c); AddLaws((Scale(rest, root) + [0])[0], 0);
        } else {
          AddLaws(t[k], 0);
          assert r[1..][k] == t[k];
        }
      }
    }
    EvalLowSum([c] + Zeros(|rest|), t, x);
    EvalLowConstant(c, |rest|, x);
  }

  lemma {:induction false} EvalLowSum(p: Poly, q: Poly, x: Byte)
    requires |p| == |q|
    ensures EvalLow(Sum(p, q), x) == Add(EvalLow(p, x), EvalLow(q, x))
  {
    hide Mul, Add;
    if p == [] {
      AddLaws(0, 0);
    } else {
      assert Sum(p, q)[1..] == Sum(p[1..], q[1..]);
      EvalLowSum(p[1..], q[1..], x);
      var a, b := EvalLow(p[1..], x), EvalLow(q[1..], x);
      MulAddLeft(a, b, x);
      AddSwap(p[0], Mul(a, x), q[0], Mul(b, x));
    }
  }

  lemma EvalLowConstant(c: Byte, n: nat, x: Byte)
    ensures EvalLow([c] + Zeros(n), x) == c
  {
    hide Mul, Add;
    assert ([c] + Zeros(n))[1..] == Zeros(n);
    EvalLowZeros(n, x);
    MulZeroLeft(x); AddLaws(c, 0);
  }

  lemma {:induction false} EvalLowZeros(n: nat, x: Byte)
    ensures EvalLow(Zeros(n), x) == 0
  {
    if n > 0 {
      assert Zeros(n)[1..] == Zeros(n - 1);
      EvalLowZeros(n - 1, x);
      MulZeroLeft(x); AddLaws(0, 0);
    }
  }

  /** The generator is monic and its roots are exactly the first powers of the field generator. */
  lemma {:induction false} GeneratorRoots(degree: nat, x: Byte)
    requires degree <= 255
    ensures Generator(degree)[degree] == 1
    ensures EvalLow(Generator(degree), x) == 0 <==> IsPower(x, degree)
  {
    hide Mul, Add, Exp;
    if degree == 0 {
      EvalLowConstant(1, 0, x);
      assert [1] + Zeros(0) == [1];
    } else {
      var p, root := Generator(degree - 1), Exp(degree - 1);
      GeneratorRoots(degree - 1, x);
      EvalLowTimesRoot(p, root, x);
      MulNonZero(EvalLow(p, x), Add(x, root));
      AddLaws(x, root);
      TimesRootAt(p, root, |p|);
      assert IsPower(x, degree) <==> IsPower(x, degree - 1) || root == x;
    }
  }

  // ---- The division identity ------------------------------------------------------------------

  lemma SumLaws(p: Poly, q: Poly)
    requires |p| == |q|
    ensures Sum(p, q) == Sum(q, p)
    ensures Sum(Sum(p, q), q) == p
    ensures Sum(p, Sum(p, q)) == q
    ensures Sum(p, Zeros(|p|)) == p && Sum(Zeros(|p|), p) == p
  {
    hide Add;
    forall i | 0 <= i < |p| ensures
      && Sum(p, q)[i] == Sum(q, p)[i] && Sum(Sum(p, q), q)[i] == p[i] && Sum(p, Sum(p, q))[i] == q[i]
      && Sum(p, Zeros(|p|))[i] == p[i] && Sum(Zeros(|p|), p)[i] == p[i]
    {
      AddLaws(p[i], q[i]); AddLaws(p[i], 0);
    }
  }

  lemma SumAssoc(p: Poly, q: Poly, r: Poly)
    requires |p| == |q| == |r|
    ensures Sum(Sum(p, q), r) == Sum(p, Sum(q, r))
  {
    hide Add;
    forall i | 0 <= i < |p| ensures Sum(Sum(p, q), r)[i] == Sum(p, Sum(q, r))[i] { AddAssoc(p[i], q[i], r[i]); }
  }

  /** The final buffer is the initial one plus the quotient convolved with the divisor. */
  lemma {:induction false} DivisionIdentity(msg: Poly, gen: Poly, rounds: nat)
    requires 0 < |gen| && |msg| == rounds + |gen| - 1
    ensures Reduce(msg, gen, rounds) == Sum(msg, Times(Quotient(msg, gen, rounds), gen))
    decreases rounds
  {
    hide Mul, Add;
    if rounds == 0 {
      SumLaws(msg, msg);
    } else {
      var m := Cancel(msg, gen);
      var q := Quotient(m[1..], gen, rounds - 1);
      DivisionIdentity(m[1..], gen, rounds - 1);
      var step, rest := Scale(gen, msg[0]) + Zeros(rounds - 1), [0] + Times(q, gen);
      SumAssoc(msg, step, rest);
      assert ([msg[0]] + q)[1..] == q;
      AddLaws(m[0], 0);
      assert [m[0]] + Sum(m[1..], Times(q, gen)) == Sum(m, rest);
    }
  }

  /** Only the entries after the first steer the division. */
  lemma {:induction false} LeadingEntryIrrelevant(msg: Poly, gen: Poly, rounds: nat, lead: Byte)
    requires 0 < |gen| && |msg| == rounds + |gen| - 1
    ensures Quotient(msg, gen, rounds) == Quotient(msg, gen[0 := lead], rounds)
    ensures Reduce(msg, gen, rounds)[rounds..] == Reduce(msg, gen[0 := lead], rounds)[rounds..]
    decreases rounds
  {
    hide Mul, Add;
    if rounds > 0 {
      var m, n := Cancel(msg, gen), Cancel(msg, gen[0 := lead]);
      assert m[1..] == n[1..];
      LeadingEntryIrrelevant(m[1..], gen, rounds - 1, lead);
      assert Reduce(msg, gen, rounds)[rounds..] == Reduce(m[1..], gen, rounds - 1)[rounds - 1..];
      assert Reduce(msg, gen[0 := lead], rounds)[rounds..] == Reduce(n[1..], gen[0 := lead], rounds - 1)[rounds - 1..];
    }
  }

  /** With a leading 1 every round clears its entry. */
  lemma {:induction false} MonicClears(msg: Poly, gen: Poly, rounds: nat)
    requires 0 < |gen| && |msg| == rounds + |gen| - 1 && gen[0] == 1
    ensures Reduce(msg, gen, rounds)[..rounds] == Zeros(rounds)
    decreases rounds
  {
    hide Mul, Add;
    if rounds > 0 {
      var m := Cancel(msg, gen);
      MulOneLeft(msg[0]); AddLaws(msg[0], msg[0]);
      MonicClears(m[1..], gen, rounds - 1);
      var r := Reduce(m[1..], gen, rounds - 1);
      assert ([m[0]] + r)[..rounds] == [m[0]] + r[..rounds - 1];
    }
  }

  /** For every divisor with a leading 1, data followed by the check bytes is the quotient times the divisor. */
  lemma MonicCodeword(data: Poly, gen: Poly)
    requires 0 < |gen| && gen[0] == 1
    ensures data + Remainder(data, gen) == Times(DataQuotient(data, gen), gen)
  {
    var n := |gen| - 1;
    var msg, z := data + Zeros(n), Times(DataQuotient(data, gen), gen);
    var r := Reduce(msg, gen, |data|);
    DivisionIdentity(msg, gen, |data|);
    MonicClears(msg, gen, |data|);
    SumLaws(msg, z);
    assert r == Zeros(|data|) + Remainder(data, gen);
    assert data + Remainder(data, gen) == Sum(msg, r) by {
      SumLaws(data, data); SumLaws(Remainder(data, gen), Zeros(n));
      SplitSum(data, Zeros(n), Zeros(|data|), Remainder(data, gen));
    }
  }

  lemma SplitSum(p: Poly, p': Poly, q: Poly, q': Poly)
    requires |p| == |q| && |p'| == |q'|
    ensures Sum(p + p', q + q') == Sum(p, q) + Sum(p', q')
  {
    hide Add;
  }

  /** The code's check bytes are those of its generator with the index-0 entry replaced by 1. */
  lemma CodewordIdentity(data: Poly, degree: nat)
    requires degree <= 512
    ensures var gen := Generator(degree);
      Codeword(data, degree) == Times(DataQuotient(data, gen), gen[0 := 1])
  {
    hide Times, Reduce, Quotient, Generator, Sum;
    var gen := Generator(degree);
    MonicCodeword(data, gen[0 := 1]);
    LeadingEntryIrrelevant(data + Zeros(degree), gen, |data|, 1);
  }

  /** ... and they are the only ones: a systematic multiple of that divisor is determined by the data. */
  lemma {:induction false} SystematicUnique(msg: Poly, gen: Poly, q: Poly)
    requires 0 < |gen| && gen[0] == 1 && |msg| == |q| + |gen| - 1
    requires Sum(msg, Times(q, gen))[..|q|] == Zeros(|q|)
    ensures q == Quotient(msg, gen, |q|)
    decreases |q|
  {
    if q != [] {
      SystematicStep(msg, gen, q);
      SystematicUnique(Cancel(msg, gen)[1..], gen, q[1..]);
    }
  }

  lemma SystematicStep(msg: Poly, gen: Poly, q: Poly)
    requires 0 < |gen| && gen[0] == 1 && |msg| == |q| + |gen| - 1 && q != []
    requires Sum(msg, Times(q, gen))[..|q|] == Zeros(|q|)
    ensures q[0] == msg[0]
    ensures Sum(Cancel(msg, gen)[1..], Times(q[1..], gen))[..|q| - 1] == Zeros(|q| - 1)
  {
    hide Mul, Add;
    var m, rest := |q| - 1, Times(q[1..], gen);
    var step, total := Scale(gen, q[0]) + Zeros(m), Sum(msg, Times(q, gen));
    SumAssoc(msg, step, [0] + rest);
    assert total[..|q|][0] == 0;
    MulOneLeft(q[0]); AddLaws(msg[0], q[0]); AddLaws(Add(msg[0], q[0]), 0);
    forall k | 0 <= k < m ensures Sum(Cancel(msg, gen)[1..], rest)[k] == 0 {
      assert total[..|q|][k + 1] == 0;
    }
  }

  lemma CodewordUnique(data: Poly, degree: nat, q: Poly, check: Poly)
    requires degree <= 512 && |q| == |data| && |check| == degree
    requires data + check == Times(q, Generator(degree)[0 := 1])
    ensures data + check == Codeword(data, degree)
  {
    hide Add;
    var gen := Generator(degree)[0 := 1];
    var msg := data + Zeros(degree);
    SumLaws(data, data); SumLaws(check, Zeros(degree));
    SplitSum(data, Zeros(degree), data, check);
    assert Sum(data, data) == Zeros(|data|) by {
      forall k | 0 <= k < |data| ensures Sum(data, data)[k] == 0 { AddLaws(data[k], data[k]); }
    }
    SystematicUnique(msg, gen, q);
    LeadingEntryIrrelevant(msg, Generator(degree), |data|, 1);
    CodewordIdentity(data, degree);
  }

  // ---- Linearity --------------------------------------------------------------------------------

  lemma CancelLinear(a: Poly, b: Poly, gen: Poly)
    requires 0 < |gen| <= |a| == |b|
    ensures Cancel(Sum(a, b), gen) == Sum(Cancel(a, gen), Cancel(b, gen))
  {
    hide Mul, Add;
    forall k | 0 <= k < |a| ensures Cancel(Sum(a, b), gen)[k] == Sum(Cancel(a, gen), Cancel(b, gen))[k] {
      var x := if k < |gen| then Mul(gen[k], a[0]) else 0;
      var y := if k < |gen| then Mul(gen[k], b[0]) else 0;
      if k < |gen| { MulAddRight(gen[k], a[0], b[0]); }
      AddLaws(0, 0);
      AddSwap(a[k], b[k], x, y);
    }
  }

  lemma {:induction false} ReduceLinear(a: Poly, b: Poly, gen: Poly, rounds: nat)
    requires 0 < |gen| && |a| == |b| == rounds + |gen| - 1
    ensures Reduce(Sum(a, b), gen, rounds) == Sum(Reduce(a, gen, rounds), Reduce(b, gen, rounds))
    decreases rounds
  {
    hide Cancel, Add;
    if rounds > 0 {
      CancelLinear(a, b, gen);
      var m, n := Cancel(a, gen), Cancel(b, gen);
      assert Sum(m, n)[1..] == Sum(m[1..], n[1..]);
      ReduceLinear(m[1..], n[1..], gen, rounds - 1);
    }
  }

  /** The check bytes of a sum are the sum of the check bytes. */
  lemma EncodeLinear(a: Poly, b: Poly, degree: nat)
    requires degree <= 512 && |a| == |b|
    ensures var gen := Generator(degree);
      Remainder(Sum(a, b), gen) == Sum(Remainder(a, gen), Remainder(b, gen))
  {
    hide Reduce, Generator, Add;
    var gen, z := Generator(degree), Zeros(degree);
    SplitSum(a, z, b, z);
    SumLaws(z, z);
    assert Sum(a, b) + z == Sum(a + z, b + z);
    ReduceLinear(a + z, b + z, gen, |a|);
  }

  // ---- When the codeword vanishes at the generator's roots -----------------------------------------

  /** Read with its leading coefficient first, the codeword is zero at every root of the generator. */
  predicate VanishesAtRoots(data: Poly, degree: nat)
    requires degree <= 255
  {
    forall i :: 0 <= i < degree ==> EvalHigh(Codeword(data, degree), Exp(i)) == 0
  }

  /** For any divisor that starts with 1, each of its roots is a root of data and check bytes together. */
  lemma MonicRoots(data: Poly, gen: Poly, x: Byte)
    requires 0 < |gen| && gen[0] == 1 && EvalHigh(gen, x) == 0
    ensures EvalHigh(data + Remainder(data, gen), x) == 0
  {
    hide Times, EvalHigh;
    MonicCodeword(data, gen);
    EvalHighTimes(DataQuotient(data, gen), gen, x);
    MulNonZero(EvalHigh(DataQuotient(data, gen), x), 0);
  }

  /** The divisor the code really uses, as a polynomial: its value at x. */
  function DivisorAt(degree: nat, x: Byte): Byte
    requires degree <= 255
  {
    EvalHigh(Generator(degree)[0 := 1], x)
  }

  lemma CodewordAt(data: Poly, degree: nat, x: Byte)
    requires degree <= 255
    ensures EvalHigh(Codeword(data, degree), x)
         == Mul(EvalHigh(DataQuotient(data, Generator(degree)), x), DivisorAt(degree, x))
  {
    hide Times, EvalHigh, Generator;
    CodewordIdentity(data, degree);
    EvalHighTimes(DataQuotient(data, Generator(degree)), Generator(degree)[0 := 1], x);
  }

  lemma DivisorSplit(degree: nat, x: Byte)
    requires degree <= 255
    ensures var g := Generator(degree);
      DivisorAt(degree, x) == Add(Mul(Add(1, g[0]), Power(x, degree)), EvalHigh(g, x))
  {
    hide Mul, Add, EvalHigh, Generator, Power;
    var g := Generator(degree);
    var rest := g[1..];
    EvalHighPrepend(1, rest, x); EvalHighPrepend(g[0], rest, x);
    assert g == [g[0]] + rest && g[0 := 1] == [1] + rest;
    var p, e := Power(x, degree), EvalHigh(rest, x);
    MulAddLeft(1, g[0], p);
    AddAssoc(Mul(1, p), Mul(g[0], p), Add(Mul(g[0], p), e));
    AddLaws(Mul(g[0], p), e);
  }

  /** Leading coefficient first, the generator is zero at x exactly when it is zero at 1/x in its own order. */
  lemma GeneratorReversed(degree: nat, i: nat)
    requires degree <= 255 && i <= 255
    ensures EvalHigh(Generator(degree), Exp(i)) == 0 <==> IsPower(Exp(255 - i), degree)
  {
    hide Mul, Exp, EvalHigh, EvalLow, Generator;
    var g, x, y := Generator(degree), Exp(i), Exp(255 - i);
    GeneratorOrder(0); MulExp(i, 255 - i);
    EvalReversed(g, x, y);
    PowerExp(i, degree); ExpNonZero(i * degree);
    MulNonZero(Power(x, degree), EvalLow(g, y));
    GeneratorRoots(degree, y);
  }

  /** At some root of the generator the divisor in use is not zero, for every degree from 2 to 254. */
  lemma DivisorMissesRoot(degree: nat) returns (i: nat)
    requires 2 <= degree <= 254
    ensures i < degree && DivisorAt(degree, Exp(i)) != 0
  {
    hide Exp, EvalHigh, Generator, Mul, Add;
    var g0 := Generator(degree)[0];
    if g0 != 1 {
      i := 0;
      DivisorSplit(degree, Exp(0));
      GeneratorReversed(degree, 0); GeneratorOrder(0); ExpPeriod(0);
      assert IsPower(Exp(0), degree);
      PowerExp(0, degree); ExpNonZero(0 * degree);
      AddLaws(1, g0);
      MulNonZero(Add(1, g0), Power(Exp(0), degree));
      AddLaws(Mul(Add(1, g0), Power(Exp(0), degree)), 0);
    } else {
      i := 1;
      DivisorSplit(degree, Exp(1));
      GeneratorReversed(degree, 1);
      forall k | 0 <= k < degree ensures Exp(k) != Exp(254) { ExpInjective(k, 254); }
      AddLaws(1, 1); MulZeroLeft(Power(Exp(1), degree));
      AddLaws(0, EvalHigh(Generator(degree), Exp(1)));
    }
  }

  /** Data bytes that are all 0 except for a final 1. */
  function OneHot(length: nat): Poly
    requires length > 0
  {
    Zeros(length - 1) + [1]
  }

  lemma {:induction false} OneHotQuotient(length: nat, gen: Poly)
    requires length > 0 && gen != []
    ensures DataQuotient(OneHot(length), gen) == OneHot(length)
  {
    hide Mul, Add;
    var msg := OneHot(length) + Zeros(|gen| - 1);
    if length == 1 {
      assert Quotient(Cancel(msg, gen)[1..], gen, 0) == [];
    } else {
      OneHotQuotient(length - 1, gen);
      forall k | 0 <= k < |msg| ensures Cancel(msg, gen)[k] == msg[k] {
        if k < |gen| { MulComm(gen[k], 0); MulZeroLeft(gen[k]); }
        AddLaws(msg[k], 0);
      }
      assert Cancel(msg, gen) == msg;
      assert msg[1..] == OneHot(length - 1) + Zeros(|gen| - 1);
      assert [0] + OneHot(length - 1) == OneHot(length);
    }
  }

  lemma OneHotAt(length: nat, x: Byte)
    requires length > 0
    ensures EvalHigh(OneHot(length), x) == 1
  {
    EvalHighZeros(length - 1, x); MulZeroLeft(x); AddLaws(0, 1);
    assert OneHot(length)[..length - 1] == Zeros(length - 1);
  }

  lemma {:induction false} ExpMultiple(k: nat)
    ensures Exp(255 * k) == 1
  {
    hide Exp;
    if k == 0 { ExpStep(0); } else { ExpMultiple(k - 1); ExpPeriod(255 * (k - 1)); }
  }

  /** 0 + 1 + ... + (n - 1). */
  function Triangle(n: nat): nat {
    if n == 0 then 0 else Triangle(n - 1) + n - 1
  }

  lemma {:induction false} TriangleValue(n: nat)
    ensures 2 * Triangle(n) == n * (n - 1)
  {
    if n > 0 { TriangleValue(n - 1); }
  }

  /** The entry at index 0 is the product of all the roots. */
  lemma {:induction false} GeneratorConstant(degree: nat)
    requires degree <= 255
    ensures Generator(degree)[0] == Exp(Triangle(degree))
  {
    hide Mul, Exp, Add, TimesRoot;
    if degree == 0 {
      ExpStep(0);
    } else {
      var p, root := Generator(degree - 1), Exp(degree - 1);
      GeneratorConstant(degree - 1);
      TimesRootAt(p, root, 0); AddLaws(Mul(p[0], root), 0);
      MulExp(Triangle(degree - 1), degree - 1);
    }
  }

  lemma RootsAtExtremes(data: Poly, degree: nat)
    requires degree <= 1 || degree == 255
    ensures VanishesAtRoots(data, degree)
  {
    hide Exp, Generator, EvalHigh, Mul, Add;
    GeneratorConstant(degree);
    assert Generator(degree)[0] == 1 by {
      TriangleValue(degree);
      if degree == 255 { ExpMultiple(127); } else { ExpMultiple(0); }
    }
    forall i | 0 <= i < degree ensures EvalHigh(Codeword(data, degree), Exp(i)) == 0 {
      GeneratorReversed(degree, i);
      if i == 0 { ExpPeriod(0); assert IsPower(Exp(0), degree); } else { assert IsPower(Exp(255 - i), degree); }
      MonicRoots(data, Generator(degree), Exp(i));
    }
  }

  /**
   * The Reed-Solomon property the encoder aims for, that every codeword is zero at the roots of its generator,
   * holds for all data of a given length exactly when the degree is 0, 1 or 255.
   */
  lemma RootsIff(degree: nat, length: nat)
    requires degree <= 255 && length > 0
    ensures (forall data: Poly :: |data| == length ==> VanishesAtRoots(data, degree)) <==> degree <= 1 || degree == 255
    ensures 2 <= degree <= 254 ==> !VanishesAtRoots(OneHot(length), degree)
  {
    if degree <= 1 || degree == 255 {
      forall data: Poly | |data| == length ensures VanishesAtRoots(data, degree) { RootsAtExtremes(data, degree); }
    } else {
      var data := OneHot(length);
      var i := DivisorMissesRoot(degree);
      CodewordAt(data, degree, Exp(i));
      OneHotQuotient(length, Generator(degree));
      OneHotAt(length, Exp(i));
      MulOneLeft(DivisorAt(degree, Exp(i)));
    }
  }

  /** The smallest failing case: degree 2 and the single data byte 1 give the check bytes 3, 1. */
  lemma DegreeTwoFails()
    ensures Remainder([1], Generator(2)) == [3, 1]
    ensures EvalHigh(Codeword([1], 2), Exp(0)) != 0
  {
    var c := Codeword([1], 2);
    assert c == [1, 3, 1] && Exp(0) == 1;
    MulComm(1, 1); MulComm(2, 1); MulOneLeft(1); MulOneLeft(2);
    assert c[..2][..1] == [1] && c[..2][..1][..0] == [];
    assert EvalHigh([1], 1) == 1 by { assert [1][..0] == []; }
    assert Add(1, 3) == 2 && Add(2, 1) == 3;
    assert EvalHigh(c[..2], 1) == 2;
  }
}
