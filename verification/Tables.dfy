/** The log/exp tables that both encoders fill once, and the multiplication that looks them up. */
module Tables {
  import opened BitXor
  import opened GaloisField

  /** Entry i of the exp table: a power of the generator, except for the two entries never written. */
  function ExpEntry(i: nat): Byte
    requires i < 512
  {
    if i < 510 then Exp(i) else 0
  }

  lemma ExpStep(i: nat)
    ensures Exp(0) == 1 && Exp(i + 1) == Double(Exp(i))
  {}

  /** Both tables hold what the lookups rely on. */
  ghost predicate Filled(exp: seq<Byte>, log: seq<nat>) {
    && |exp| == 512 && |log| == 256
    && (forall i :: 0 <= i < 512 ==> exp[i] == ExpEntry(i))
    && (forall i :: 0 <= i < 255 ==> log[Exp(i)] == i)
  }

  /** The initialisation loop, over zeroed arrays. */
  method FillTables(exp: array<Byte>, log: array<nat>)
    requires exp.Length == 512 && log.Length == 256
    requires forall i :: 0 <= i < 512 ==> exp[i] == 0
    modifies exp, log
    ensures Filled(exp[..], log[..])
  {
    hide Xor, Exp, Mul;
    var x: nat := 1;
    ExpStep(0);
    for i := 0 to 255
      invariant x == Exp(i)
      invariant forall k :: 0 <= k < i ==> exp[k] == Exp(k)
      invariant forall k :: 255 <= k < 255 + i ==> exp[k] == Exp(k - 255)
      invariant exp[510] == 0 && exp[511] == 0
      invariant forall k :: 0 <= k < i ==> log[Exp(k)] == k
    {
      exp[i] := x;
      exp[i + 255] := x;
      forall k | 0 <= k < i ensures Exp(k) != x { ExpInjective(k, i); }
      log[x] := i;
      ExpStep(i);
      x := 2 * x;
      if x / 256 % 2 == 1 {
        x := Xor(x, 0x11D);
      }
    }
    forall k | 255 <= k < 510 ensures exp[k] == Exp(k) {
      ExpPeriod(k - 255);
    }
  }

  class GaloisTables {
    const exp: array<Byte>
    const log: array<nat>

    ghost predicate Valid()
      reads exp, log
    {
      Filled(exp[..], log[..])
    }

    constructor ()
      ensures Valid() && fresh(exp) && fresh(log)
    {
      exp := new Byte[512](_ => 0);
      log := new nat[256](_ => 0);
      new;
      FillTables(exp, log);
    }

    /** The table lookup is the field product. */
    method GfMul(x: Byte, y: Byte) returns (product: Byte)
      requires Valid()
      ensures product == Mul(x, y)
    {
      if x == 0 || y == 0 {
        MulZeroLeft(y);
        return 0;
      }
      ghost var i, j := Log(x), Log(y);
      assert log[..][Exp(i)] == i && log[..][Exp(j)] == j && exp[..][i + j] == ExpEntry(i + j);
      MulExp(i, j);
      product := exp[log[x] + log[y]];
    }
  }
}
