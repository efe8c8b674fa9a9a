/** The Reed-Solomon generator and the in-place division loop of the two encoders. */
module ReedSolomon {
  import opened GaloisField
  import opened Polynomials
  import opened Tables

  // ---- Specification ------------------------------------------------------------------------

  /** One more factor (x - root), lowest coefficient first. */
  function TimesRoot(p: Poly, root: Byte): (r: Poly)
    ensures |r| == |p| + 1
  {
    Sum(Scale(p, root) + [0], [0] + p)
  }

  /** The generator polynomial as the code returns it, lowest coefficient first. */
  function Generator(degree: nat): (g: Poly)
    requires degree <= 512
    ensures |g| == degree + 1
  {
    if degree == 0 then [1] else TimesRoot(Generator(degree - 1), ExpEntry(degree - 1))
  }

  /** One round of the division loop: gen, scaled by the front entry, is added at the front. */
  function Cancel(msg: Poly, gen: Poly): (r: Poly)
    requires 0 < |gen| <= |msg|
    ensures |r| == |msg|
  {
    Sum(msg, Scale(gen, msg[0]) + Zeros(|msg| - |gen|))
  }

  /** The buffer after the given number of rounds, each starting one entry further on. */
  function Reduce(msg: Poly, gen: Poly, rounds: nat): (r: Poly)
    requires 0 < |gen| && |msg| == rounds + |gen| - 1
    ensures |r| == |msg|
    decreases rounds
  {
    if rounds == 0 then msg
    else var m := Cancel(msg, gen); [m[0]] + Reduce(m[1..], gen, rounds - 1)
  }

  /** The front entries met by the rounds: the quotient. */
  function Quotient(msg: Poly, gen: Poly, rounds: nat): (q: Poly)
    requires 0 < |gen| && |msg| == rounds + |gen| - 1
    ensures |q| == rounds
    decreases rounds
  {
    if rounds == 0 then []
    else [msg[0]] + Quotient(Cancel(msg, gen)[1..], gen, rounds - 1)
  }

  /** The check bytes that rs_encode returns, for any polynomial in the place of the generator. */
  function Remainder(data: Poly, gen: Poly): (ec: Poly)
    requires 0 < |gen|
    ensures |ec| == |gen| - 1
  {
    Reduce(data + Zeros(|gen| - 1), gen, |data|)[|data|..]
  }

  function DataQuotient(data: Poly, gen: Poly): (q: Poly)
    requires 0 < |gen|
    ensures |q| == |data|
  {
    Quotient(data + Zeros(|gen| - 1), gen, |data|)
  }

  /** Data followed by its check bytes. */
  function Codeword(data: Poly, degree: nat): (c: Poly)
    requires degree <= 512
    ensures |c| == |data| + degree
  {
    data + Remainder(data, Generator(degree))
  }

  // ---- The loops ----------------------------------------------------------------------------

  lemma TimesRootAt(p: Poly, root: Byte, j: nat)
    requires p != [] && j <= |p|
    ensures j == 0 ==> TimesRoot(p, root)[j] == Add(0, Mul(p[0], root))
    ensures 0 < j < |p| ==> TimesRoot(p, root)[j] == Add(p[j - 1], Mul(p[j], root))
    ensures j == |p| ==> TimesRoot(p, root)[j] == p[j - 1]
  {
    hide Mul, Add;
    var here := if j < |p| then Mul(p[j], root) else 0;
    var before := if j > 0 then p[j - 1] else 0;
    AddLaws(here, before);
    AddLaws(before, here);
  }

  method RsGeneratorPoly(tables: GaloisTables, degree: nat) returns (poly: array<Byte>)
    requires tables.Valid() && degree <= 512
    ensures fresh(poly) && poly[..] == Generator(degree)
  {
    hide Mul, Add, TimesRoot;
    poly := new Byte[1][1];
    for i := 0 to degree
      invariant fresh(poly) && poly[..] == Generator(i)
    {
      ghost var p := poly[..];
      var nextPoly := new Byte[poly.Length + 1](_ => 0);
      var root := tables.exp[i];
      assert root == tables.exp[..][i];
      for j := 0 to poly.Length
        invariant poly[..] == p
        invariant forall k :: 0 <= k < j ==> nextPoly[k] == TimesRoot(p, root)[k]
        invariant nextPoly[j] == if j == 0 then 0 else p[j - 1]
        invariant forall k :: j < k < nextPoly.Length ==> nextPoly[k] == 0
      {
        TimesRootAt(p, root, j);
        var product := tables.GfMul(poly[j], root);
        nextPoly[j] := Add(nextPoly[j], product);
        AddLaws(poly[j], 0);
        nextPoly[j + 1] := Add(nextPoly[j + 1], poly[j]);
      }
      TimesRootAt(p, root, |p|);
      assert nextPoly[..] == TimesRoot(p, root);
      poly := nextPoly;
    }
  }

  /** What one round of the in-place division leaves behind keeps the final buffer unchanged. */
  lemma CancelInPlace(before: Poly, after: Poly, gen: Poly, i: nat)
    requires 0 < |gen| && i < |before| == |after| && |gen| <= |before| - i
    requires forall k :: 0 <= k < |before| && !(i <= k < i + |gen|) ==> after[k] == before[k]
    requires forall k :: i <= k < i + |gen| ==> after[k] == Add(before[k], Mul(gen[k - i], before[i]))
    ensures var rounds := |before| - i - |gen|;
      after[..i + 1] + Reduce(after[i + 1..], gen, rounds) == before[..i] + Reduce(before[i..], gen, rounds + 1)
  {
    hide Mul, Add, Cancel, Reduce;
    CancelAfter(before[i..], after[i..], gen);
    Prefix(before, after, i);
    Suffix(after, i);
    RoundInPlace(after[..i + 1], before[..i], before[i..], after[i], after[i + 1..], gen, |before| - i - |gen|);
  }

  lemma RoundInPlace(longer: Poly, head: Poly, msg: Poly, entry: Byte, rest: Poly, gen: Poly, rounds: nat)
    requires 0 < |gen| && |msg| == |gen| + rounds && Cancel(msg, gen) == [entry] + rest
    requires longer == head + [entry]
    ensures longer + Reduce(rest, gen, rounds) == head + Reduce(msg, gen, rounds + 1)
  {
    hide Cancel;
    assert ([entry] + rest)[1..] == rest;
    assert Reduce(msg, gen, rounds + 1) == [entry] + Reduce(rest, gen, rounds);
  }

  lemma Prefix(before: Poly, after: Poly, i: nat)
    requires i < |before| == |after| && forall k :: 0 <= k < i ==> after[k] == before[k]
    ensures after[..i + 1] == before[..i] + [after[i]]
  {}

  lemma Suffix(after: Poly, i: nat)
    requires i < |after|
    ensures after[i..] == [after[i]] + after[i + 1..]
  {}

  lemma CancelAfter(before: Poly, after: Poly, gen: Poly)
    requires 0 < |gen| <= |before| == |after|
    requires forall k :: |gen| <= k < |before| ==> after[k] == before[k]
    requires forall k :: 0 <= k < |gen| ==> after[k] == Add(before[k], Mul(gen[k], before[0]))
    ensures after == Cancel(before, gen)
  {
    hide Mul, Add;
    forall k | 0 <= k < |before| ensures Cancel(before, gen)[k] == after[k] { AddLaws(before[k], 0); }
  }

  lemma ReduceDone(msg: Poly, gen: Poly)
    requires |gen| > 0 && |msg| == |gen| - 1
    ensures Reduce(msg, gen, 0) == msg
  {}

  /** The inner loop: the scaled generator is added at offset i, in place, unless the entry there is 0. */
  method CancelAt(tables: GaloisTables, generator: array<Byte>, msg: array<Byte>, i: nat)
    requires tables.Valid() && msg !in {tables.exp, generator}
    requires 0 < generator.Length && i + generator.Length <= msg.Length
    modifies msg
    ensures forall k :: 0 <= k < msg.Length && !(i <= k < i + generator.Length) ==> msg[k] == old(msg[k])
    ensures forall k :: i <= k < i + generator.Length ==> msg[k] == Add(old(msg[k]), Mul(generator[k - i], old(msg[i])))
  {
    hide Mul, Add;
    var coef := msg[i];
    if coef != 0 {
      for j := 0 to generator.Length
        invariant forall k :: 0 <= k < msg.Length && !(i <= k < i + j) ==> msg[k] == old(msg[k])
        invariant forall k :: i <= k < i + j ==> msg[k] == Add(old(msg[k]), Mul(generator[k - i], coef))
      {
        var product := tables.GfMul(generator[j], coef);
        msg[i + j] := Add(msg[i + j], product);
      }
    } else {
      forall k | i <= k < i + generator.Length ensures msg[k] == Add(msg[k], Mul(generator[k - i], 0)) {
        MulComm(generator[k - i], 0); MulZeroLeft(generator[k - i]); AddLaws(msg[k], 0);
      }
    }
  }

  /** The division loop: one round for each data byte. */
  method DivideInPlace(tables: GaloisTables, generator: array<Byte>, msg: array<Byte>, dataLength: nat)
    requires tables.Valid() && msg !in {tables.exp, generator}
    requires 0 < generator.Length && msg.Length == dataLength + generator.Length - 1
    modifies msg
    ensures msg[..] == Reduce(old(msg[..]), generator[..], dataLength)
  {
    hide Mul, Add, Reduce, Filled;
    ghost var gen, start := generator[..], msg[..];
    assert msg[0..] == start;
    for i := 0 to dataLength
      invariant generator[..] == gen
      invariant msg[..i] + Reduce(msg[i..], gen, dataLength - i) == Reduce(start, gen, dataLength)
    {
      ghost var before := msg[..];
      CancelAt(tables, generator, msg, i);
      CancelInPlace(before, msg[..], gen, i);
    }
    ReduceDone(msg[dataLength..], gen);
    assert msg[..] == msg[..dataLength] + msg[dataLength..];
  }

  method RsEncode(tables: GaloisTables, data: array<Byte>, numEcBytes: nat) returns (ec: array<Byte>)
    requires tables.Valid() && numEcBytes <= 512
    ensures fresh(ec) && ec[..] == Remainder(data[..], Generator(numEcBytes))
  {
    hide Mul, Add, Generator, Reduce, Filled;
    var generator := RsGeneratorPoly(tables, numEcBytes);
    ghost var gen, d := Generator(numEcBytes), data[..];
    assert |gen| == numEcBytes + 1;
    var msg := new Byte[data.Length + numEcBytes](_ => 0);
    forall i | 0 <= i < data.Length { msg[i] := data[i]; }
    assert msg[..] == d + Zeros(numEcBytes);
    assert generator[..] == gen;
    DivideInPlace(tables, generator, msg, data.Length);
    assert generator[..] == gen;
    ghost var final := msg[..];
    assert Remainder(d, gen) == final[data.Length..];
    ec := new Byte[numEcBytes](_ => 0);
    forall k | 0 <= k < numEcBytes { ec[k] := msg[data.Length + k]; }
    assert ec[..] == final[data.Length..];
    assert data[..] == d;
  }
}
