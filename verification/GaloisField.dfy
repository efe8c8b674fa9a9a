/** GF(256) as both QR encoders use it: shift-and-XOR arithmetic modulo 0x11D and the log/exp tables built from it. */
module GaloisField {
  import opened BitXor
  import opened Collections

  type Byte = x: nat | x < 256

  /** Field addition (and subtraction). */
  function Add(a: Byte, b: Byte): Byte {
    XorTop(a, b, 128);
    Xor(a, b)
  }

  /** Multiplication by the generator: one shift, reduced by 0x11D when bit 8 appears. */
  function Double(x: Byte): Byte {
    if 2 * x >= 256 then XorTop(2 * x, 0x11D, 256); Xor(2 * x, 0x11D) else 2 * x
  }

  /** Reference product: shift-and-XOR multiplication modulo 0x11D. */
  function Mul(a: Byte, b: Byte): Byte
    decreases b
  {
    if b == 0 then 0
    else
      var rest := Mul(Double(a), b / 2);
      if b % 2 == 1 then Add(a, rest) else rest
  }

  /** The powers of the generator. */
  function Exp(n: nat): Byte {
    if n == 0 then 1 else Double(Exp(n - 1))
  }

  // ---- Addition is an exclusive or --------------------------------------------------------

  lemma AddLaws(a: Byte, b: Byte)
    ensures Add(a, b) == Add(b, a)
    ensures Add(a, 0) == a && Add(0, a) == a && Add(a, a) == 0
    ensures Add(Add(a, b), b) == a && Add(a, Add(a, b)) == b
    ensures Add(a, b) == 0 <==> a == b
  {
    XorComm(a, b); XorZero(a); XorZero(b); XorSelf(a); XorCancel(a, b); XorCancel(b, a);
    XorComm(Add(a, b), a); XorZero(b);
  }

  lemma AddAssoc(a: Byte, b: Byte, c: Byte)
    ensures Add(Add(a, b), c) == Add(a, Add(b, c))
  {
    XorAssoc(a, b, c);
  }

  lemma AddSwap(p: Byte, q: Byte, r: Byte, s: Byte)
    ensures Add(Add(p, q), Add(r, s)) == Add(Add(p, r), Add(q, s))
  {
    XorSwap(p, q, r, s);
  }

  // ---- Mul is a commutative, associative, bilinear product --------------------------------

  lemma DoubleLinear(a: Byte, b: Byte)
    ensures Double(Add(a, b)) == Add(Double(a), Double(b))
  {
    XorTop(a, b, 128);
    XorDouble(a, b);
    var x, y, t := 2 * a, 2 * b, 0x11D;
    XorAssoc(x, y, t);
    XorAssoc(x, t, y); XorComm(t, y);
    XorSwap(x, t, y, t); XorSelf(t); XorZero(Xor(x, y));
  }

  lemma {:induction false} MulAddLeft(a: Byte, b: Byte, c: Byte)
    ensures Mul(Add(a, b), c) == Add(Mul(a, c), Mul(b, c))
    decreases c
  {
    if c == 0 {
      AddLaws(0, 0);
    } else {
      DoubleLinear(a, b);
      MulAddLeft(Double(a), Double(b), c / 2);
      AddSwap(a, b, Mul(Double(a), c / 2), Mul(Double(b), c / 2));
    }
  }

  lemma {:induction false} MulDoubleLeft(a: Byte, b: Byte)
    ensures Mul(Double(a), b) == Double(Mul(a, b))
    decreases b
  {
    if b != 0 {
      MulDoubleLeft(Double(a), b / 2);
      DoubleLinear(a, Mul(Double(a), b / 2));
    }
  }

  lemma {:induction false} MulZeroLeft(b: Byte)
    ensures Mul(0, b) == 0
  {
    if b != 0 { MulZeroLeft(b / 2); AddLaws(0, 0); }
  }

  /** A byte is its low bit plus twice its upper half, as polynomials too. */
  lemma SplitLowBit(b: Byte)
    ensures Double(b / 2) == 2 * (b / 2)
    ensures b == Add(b % 2, Double(b / 2))
  {
    var h := b / 2;
    assert Xor(1, 2 * h) == 2 * Xor(0, h) + 1;
    XorZero(h); XorZero(2 * h);
  }

  lemma {:induction false} MulOneLeft(b: Byte)
    ensures Mul(1, b) == b
  {
    if b != 0 {
      MulDoubleLeft(1, b / 2);
      MulOneLeft(b / 2);
      SplitLowBit(b);
    }
  }

  lemma {:induction false} MulComm(a: Byte, b: Byte)
    ensures Mul(a, b) == Mul(b, a)
    decreases b
  {
    MulZeroLeft(a);
    if b != 0 {
      var h, low := b / 2, b % 2;
      MulDoubleLeft(a, h);
      MulComm(a, h);
      MulDoubleLeft(h, a);
      SplitLowBit(b);
      MulAddLeft(low, Double(h), a);
      MulOneLeft(a);
      AddLaws(0, Mul(Double(h), a));
    }
  }

  lemma MulAddRight(a: Byte, b: Byte, c: Byte)
    ensures Mul(a, Add(b, c)) == Add(Mul(a, b), Mul(a, c))
  {
    MulComm(a, Add(b, c)); MulAddLeft(b, c, a); MulComm(a, b); MulComm(a, c);
  }

  lemma {:induction false} MulAssoc(a: Byte, b: Byte, c: Byte)
    ensures Mul(Mul(a, b), c) == Mul(a, Mul(b, c))
    decreases c
  {
    if c != 0 {
      var rest := Mul(Double(b), c / 2);
      MulDoubleLeft(b, a); MulComm(a, Double(b)); MulComm(a, b);
      MulAssoc(a, Double(b), c / 2);
      MulAddRight(a, b, rest);
    }
  }

  // ---- The generator has order 255 -------------------------------------------------------

  lemma {:induction false} MulExp(i: nat, j: nat)
    ensures Mul(Exp(i), Exp(j)) == Exp(i + j)
    decreases j
  {
    if j == 0 {
      MulComm(Exp(i), 1); MulOneLeft(Exp(i));
    } else {
      MulExp(i, j - 1);
      MulComm(Exp(i), Exp(j)); MulDoubleLeft(Exp(j - 1), Exp(i)); MulComm(Exp(i), Exp(j - 1));
    }
  }

  predicate IsBit(b: int) {
    b == 0 || b == 1
  }

  function Toggle(a: int, b: int): int {
    if a == b then 0 else 1
  }

  lemma XorDigit(a: nat, b: nat, p: int, q: int)
    requires IsBit(p) && IsBit(q)
    ensures Xor(p + 2 * a, q + 2 * b) == Toggle(p, q) + 2 * Xor(a, b)
  {
    var x, y := p + 2 * a, q + 2 * b;
    assert x / 2 == a && y / 2 == b && x % 2 == p && y % 2 == q;
    XorHalf(x, y);
  }

  lemma XorThreeDigits(a: nat, b: nat, p0: int, p1: int, p2: int, q0: int, q1: int, q2: int)
    requires IsBit(p0) && IsBit(p1) && IsBit(p2) && IsBit(q0) && IsBit(q1) && IsBit(q2)
    ensures Xor(p0 + 2 * p1 + 4 * p2 + 8 * a, q0 + 2 * q1 + 4 * q2 + 8 * b)
         == Toggle(p0, q0) + 2 * Toggle(p1, q1) + 4 * Toggle(p2, q2) + 8 * Xor(a, b)
  {
    hide Xor;
    XorDigit(p1 + 2 * p2 + 4 * a, q1 + 2 * q2 + 4 * b, p0, q0);
    XorDigit(p2 + 2 * a, q2 + 2 * b, p1, q1);
    XorDigit(a, b, p2, q2);
  }

  /** The byte with the given binary digits, lowest first. */
  function FromBits(b0: int, b1: int, b2: int, b3: int, b4: int, b5: int, b6: int, b7: int): int {
    b0 + 2 * b1 + 4 * b2 + 8 * b3 + 16 * b4 + 32 * b5 + 64 * b6 + 128 * b7
  }

  /** Reducing modulo 0x11D toggles digits 0, 2, 3, 4 and 8 of the shifted value. */
  lemma ReduceDigits(b0: int, b1: int, b2: int, b3: int, b4: int, b5: int, b6: int)
    requires IsBit(b0) && IsBit(b1) && IsBit(b2) && IsBit(b3) && IsBit(b4) && IsBit(b5) && IsBit(b6)
    ensures Xor(2 * FromBits(b0, b1, b2, b3, b4, b5, b6, 1), 0x11D)
         == FromBits(1, b0, Toggle(b1, 1), Toggle(b2, 1), Toggle(b3, 1), b4, b5, b6)
  {
    hide Xor;
    var h := b4 + 2 * b5 + 4 * b6;
    XorThreeDigits(1, 1, b4, b5, b6, 0, 0, 0); XorSelf(1);
    assert Xor(h + 8, 8) == h;
    XorDigit(h + 8, 8, b3, 1);
    XorDigit(b3 + 2 * (h + 8), 0x11, b2, 1);
    XorThreeDigits(b2 + 2 * (b3 + 2 * (h + 8)), 0x23, 0, b0, b1, 1, 0, 1);
  }

  /** One doubling, digit by digit. */
  lemma DoubleDigits(b0: int, b1: int, b2: int, b3: int, b4: int, b5: int, b6: int, b7: int)
    requires IsBit(b0) && IsBit(b1) && IsBit(b2) && IsBit(b3) && IsBit(b4) && IsBit(b5) && IsBit(b6) && IsBit(b7)
    ensures Double(FromBits(b0, b1, b2, b3, b4, b5, b6, b7))
         == FromBits(b7, b0, Toggle(b1, b7), Toggle(b2, b7), Toggle(b3, b7), b4, b5, b6)
  {
    hide Xor;
    if b7 == 1 { ReduceDigits(b0, b1, b2, b3, b4, b5, b6); }
  }

  /** n doublings of the byte with these digits end at y and never start from 1. */
  predicate Orbit(b0: int, b1: int, b2: int, b3: int, b4: int, b5: int, b6: int, b7: int, n: nat, y: int)
    decreases n
  {
    var x := b0 + 2 * b1 + 4 * b2 + 8 * b3 + 16 * b4 + 32 * b5 + 64 * b6 + 128 * b7;
    if n == 0 then x == y
    else if x == 1 then false
    else Orbit(b7, b0, Toggle(b1, b7), Toggle(b2, b7), Toggle(b3, b7), b4, b5, b6, n - 1, y)
  }

  lemma OrbitNext(b0: int, b1: int, b2: int, b3: int, b4: int, b5: int, b6: int, b7: int, n: nat, y: int)
    requires Orbit(b0, b1, b2, b3, b4, b5, b6, b7, n, y)
    ensures n == 0 ==> FromBits(b0, b1, b2, b3, b4, b5, b6, b7) == y
    ensures n > 0 ==> FromBits(b0, b1, b2, b3, b4, b5, b6, b7) != 1
    ensures n > 0 ==> Orbit(b7, b0, Toggle(b1, b7), Toggle(b2, b7), Toggle(b3, b7), b4, b5, b6, n - 1, y)
  {}

  lemma ToggleBit(b: int, top: int)
    requires IsBit(b) && IsBit(top)
    ensures IsBit(Toggle(b, top))
  {}

  lemma ExpNext(i: nat)
    ensures Exp(i + 1) == Double(Exp(i))
  {}

  lemma {:induction false} OrbitExp(i: nat, b0: int, b1: int, b2: int, b3: int, b4: int, b5: int, b6: int, b7: int,
        n: nat, y: int, k: nat)
    requires IsBit(b0) && IsBit(b1) && IsBit(b2) && IsBit(b3) && IsBit(b4) && IsBit(b5) && IsBit(b6) && IsBit(b7)
    requires Orbit(b0, b1, b2, b3, b4, b5, b6, b7, n, y) && Exp(i) == FromBits(b0, b1, b2, b3, b4, b5, b6, b7)
    ensures Exp(i + n) == y
    ensures i <= k < i + n ==> Exp(k) != 1
    decreases n
  {
    hide Double, Exp, Toggle, FromBits;
    OrbitNext(b0, b1, b2, b3, b4, b5, b6, b7, n, y);
    if n > 0 {
      DoubleDigits(b0, b1, b2, b3, b4, b5, b6, b7);
      ExpNext(i);
      ToggleBit(b1, b7); ToggleBit(b2, b7); ToggleBit(b3, b7);
      hide Orbit;
      OrbitExp(i + 1, b7, b0, Toggle(b1, b7), Toggle(b2, b7), Toggle(b3, b7), b4, b5, b6, n - 1, y, k);
    }
  }

  lemma Orbit0(j: nat)
    requires Exp(1) == 2
    ensures Exp(65) == 190
    ensures 1 <= j < 65 ==> Exp(j) != 1
  {
    hide Exp;
    assert Exp(9) == 58 && (1 <= j < 9 ==> Exp(j) != 1) by { OrbitExp(1, 0, 1, 0, 0, 0, 0, 0, 0, 8, 58, j); }
    assert Exp(17) == 152 && (9 <= j < 17 ==> Exp(j) != 1) by { OrbitExp(9, 0, 1, 0, 1, 1, 1, 0, 0, 8, 152, j); }
    assert Exp(25) == 3 && (17 <= j < 25 ==> Exp(j) != 1) by { OrbitExp(17, 0, 0, 0, 1, 1, 0, 0, 1, 8, 3, j); }
    assert Exp(33) == 39 && (25 <= j < 33 ==> Exp(j) != 1) by { OrbitExp(25, 1, 1, 0, 0, 0, 0, 0, 0, 8, 39, j); }
    assert Exp(41) == 212 && (33 <= j < 41 ==> Exp(j) != 1) by { OrbitExp(33, 1, 1, 1, 0, 0, 1, 0, 0, 8, 212, j); }
    assert Exp(49) == 140 && (41 <= j < 49 ==> Exp(j) != 1) by { OrbitExp(41, 0, 0, 1, 0, 1, 0, 1, 1, 8, 140, j); }
    assert Exp(57) == 186 && (49 <= j < 57 ==> Exp(j) != 1) by { OrbitExp(49, 0, 0, 1, 1, 0, 0, 0, 1, 8, 186, j); }
    assert Exp(65) == 190 && (57 <= j < 65 ==> Exp(j) != 1) by { OrbitExp(57, 0, 1, 0, 1, 1, 1, 0, 1, 8, 190, j); }
  }

  lemma Orbit1(j: nat)
    requires Exp(65) == 190
    ensures Exp(129) == 23
    ensures 65 <= j < 129 ==> Exp(j) != 1
  {
    hide Exp;
    assert Exp(73) == 202 && (65 <= j < 73 ==> Exp(j) != 1) by { OrbitExp(65, 0, 1, 1, 1, 1, 1, 0, 1, 8, 202, j); }
    assert Exp(81) == 231 && (73 <= j < 81 ==> Exp(j) != 1) by { OrbitExp(73, 0, 1, 0, 1, 0, 0, 1, 1, 8, 231, j); }
    assert Exp(89) == 225 && (81 <= j < 89 ==> Exp(j) != 1) by { OrbitExp(81, 1, 1, 1, 0, 0, 1, 1, 1, 8, 225, j); }
    assert Exp(97) == 175 && (89 <= j < 97 ==> Exp(j) != 1) by { OrbitExp(89, 1, 0, 0, 0, 0, 1, 1, 1, 8, 175, j); }
    assert Exp(105) == 26 && (97 <= j < 105 ==> Exp(j) != 1) by { OrbitExp(97, 1, 1, 1, 1, 0, 1, 0, 1, 8, 26, j); }
    assert Exp(113) == 31 && (105 <= j < 113 ==> Exp(j) != 1) by { OrbitExp(105, 0, 1, 0, 1, 1, 0, 0, 0, 8, 31, j); }
    assert Exp(121) == 118 && (113 <= j < 121 ==> Exp(j) != 1) by { OrbitExp(113, 1, 1, 1, 1, 1, 0, 0, 0, 8, 118, j); }
    assert Exp(129) == 23 && (121 <= j < 129 ==> Exp(j) != 1) by { OrbitExp(121, 0, 1, 1, 0, 1, 1, 1, 0, 8, 23, j); }
  }

  lemma Orbit2(j: nat)
    requires Exp(129) == 23
    ensures Exp(193) == 25
    ensures 129 <= j < 193 ==> Exp(j) != 1
  {
    hide Exp;
    assert Exp(137) == 158 && (129 <= j < 137 ==> Exp(j) != 1) by { OrbitExp(129, 1, 1, 1, 0, 1, 0, 0, 0, 8, 158, j); }
    assert Exp(145) == 77 && (137 <= j < 145 ==> Exp(j) != 1) by { OrbitExp(137, 0, 1, 1, 1, 1, 0, 0, 1, 8, 77, j); }
    assert Exp(153) == 146 && (145 <= j < 153 ==> Exp(j) != 1) by { OrbitExp(145, 1, 0, 1, 1, 0, 0, 1, 0, 8, 146, j); }
    assert Exp(161) == 209 && (153 <= j < 161 ==> Exp(j) != 1) by { OrbitExp(153, 0, 1, 0, 0, 1, 0, 0, 1, 8, 209, j); }
    assert Exp(169) == 229 && (161 <= j < 169 ==> Exp(j) != 1) by { OrbitExp(161, 1, 0, 0, 0, 1, 0, 1, 1, 8, 229, j); }
    assert Exp(177) == 219 && (169 <= j < 177 ==> Exp(j) != 1) by { OrbitExp(169, 1, 0, 1, 0, 0, 1, 1, 1, 8, 219, j); }
    assert Exp(185) == 55 && (177 <= j < 185 ==> Exp(j) != 1) by { OrbitExp(177, 1, 1, 0, 1, 1, 0, 1, 1, 8, 55, j); }
    assert Exp(193) == 25 && (185 <= j < 193 ==> Exp(j) != 1) by { OrbitExp(185, 1, 1, 1, 0, 1, 1, 0, 0, 8, 25, j); }
  }

  lemma Orbit3(j: nat)
    requires Exp(193) == 25
    ensures Exp(254) == 142
    ensures 193 <= j < 254 ==> Exp(j) != 1
  {
    hide Exp;
    assert Exp(201) == 56 && (193 <= j < 201 ==> Exp(j) != 1) by { OrbitExp(193, 1, 0, 0, 1, 1, 0, 0, 0, 8, 56, j); }
    assert Exp(209) == 162 && (201 <= j < 209 ==> Exp(j) != 1) by { OrbitExp(201, 0, 0, 0, 1, 1, 1, 0, 0, 8, 162, j); }
    assert Exp(217) == 155 && (209 <= j < 217 ==> Exp(j) != 1) by { OrbitExp(209, 0, 1, 0, 0, 0, 1, 0, 1, 8, 155, j); }
    assert Exp(225) == 36 && (217 <= j < 225 ==> Exp(j) != 1) by { OrbitExp(217, 1, 1, 0, 1, 1, 0, 0, 1, 8, 36, j); }
    assert Exp(233) == 243 && (225 <= j < 233 ==> Exp(j) != 1) by { OrbitExp(225, 0, 0, 1, 0, 0, 1, 0, 0, 8, 243, j); }
    assert Exp(241) == 88 && (233 <= j < 241 ==> Exp(j) != 1) by { OrbitExp(233, 1, 1, 0, 0, 1, 1, 1, 1, 8, 88, j); }
    assert Exp(249) == 54 && (241 <= j < 249 ==> Exp(j) != 1) by { OrbitExp(241, 0, 0, 0, 1, 1, 0, 1, 0, 8, 54, j); }
    assert Exp(254) == 142 && (249 <= j < 254 ==> Exp(j) != 1) by { OrbitExp(249, 0, 1, 1, 0, 1, 1, 0, 0, 5, 142, j); }
  }

  lemma NextPower(n: nat)
    ensures Exp(0) == 1 && Exp(n + 1) == Double(Exp(n))
  {}

  lemma LastDoubling()
    ensures Double(1) == 2 && Double(142) == 1
  {
    DoubleDigits(0, 1, 1, 1, 0, 0, 0, 1);
  }

  /** The generator has order exactly 255. */
  lemma GeneratorOrder(j: nat)
    ensures Exp(255) == 1
    ensures 1 <= j < 255 ==> Exp(j) != 1
  {
    hide Exp, Double;
    LastDoubling();
    NextPower(0); NextPower(254);
    Orbit0(j); Orbit1(j); Orbit2(j); Orbit3(j);
  }

  // ---- Logarithms: the 255 powers are exactly the non-zero bytes ----------------------------

  lemma ExpPeriod(i: nat)
    ensures Exp(i + 255) == Exp(i)
  {
    hide Mul;
    GeneratorOrder(0); MulExp(i, 255); MulComm(Exp(i), 1); MulOneLeft(Exp(i));
  }

  lemma {:induction false} ExpNonZero(i: nat)
    ensures Exp(i) != 0
  {
    if i > 255 {
      ExpNonZero(i - 255); ExpPeriod(i - 255);
    } else {
      GeneratorOrder(0); MulExp(i, 255 - i); MulZeroLeft(Exp(255 - i));
    }
  }

  lemma ExpInjective(i: nat, j: nat)
    requires i < j < 255
    ensures Exp(i) != Exp(j)
  {
    hide Mul, Exp;
    GeneratorOrder(j - i);
    MulExp(i, 255 - i); MulExp(j, 255 - i); ExpPeriod(j - i);
    assert j + (255 - i) == j - i + 255;
  }

  /** The bytes 1 to m. */
  function NonZeroUpTo(m: nat): set<nat> {
    if m == 0 then {} else NonZeroUpTo(m - 1) + {m}
  }

  lemma {:induction false} NonZeroUpToSize(m: nat)
    ensures |NonZeroUpTo(m)| == m
    ensures forall y: nat :: y in NonZeroUpTo(m) <==> 1 <= y <= m
  {
    if m > 0 { NonZeroUpToSize(m - 1); }
  }

  /** The first n powers of the generator. */
  function Powers(n: nat): set<nat> {
    if n == 0 then {} else Powers(n - 1) + {Exp(n - 1)}
  }

  predicate IsPower(y: nat, n: nat) {
    exists i :: 0 <= i < n && Exp(i) == y
  }

  lemma {:induction false} PowersSize(n: nat)
    requires n <= 255
    ensures |Powers(n)| == n
    ensures forall y: nat :: y in Powers(n) ==> 1 <= y <= 255 && IsPower(y, n)
  {
    hide Exp;
    if n > 0 {
      PowersSize(n - 1);
      ExpNonZero(n - 1);
      forall i | 0 <= i < n - 1 ensures Exp(i) != Exp(n - 1) { ExpInjective(i, n - 1); }
      assert Exp(n - 1) !in Powers(n - 1);
      forall y: nat | y in Powers(n) ensures 1 <= y <= 255 && IsPower(y, n) {
        if y in Powers(n - 1) { assert IsPower(y, n - 1); }
      }
    }
  }

  lemma LogExists(x: Byte)
    requires x != 0
    ensures IsPower(x, 255)
  {
    hide Powers, NonZeroUpTo, Exp;
    PowersSize(255); NonZeroUpToSize(255);
    if x !in Powers(255) {
      assert x in NonZeroUpTo(255);
      SubsetSize(Powers(255), NonZeroUpTo(255));
    }
  }

  /** The discrete logarithm. */
  ghost function Log(x: Byte): (i: nat)
    requires x != 0
    ensures i < 255 && Exp(i) == x
  {
    LogExists(x);
    var i :| 0 <= i < 255 && Exp(i) == x;
    i
  }

  /** The field has no zero divisors. */
  lemma MulNonZero(a: Byte, b: Byte)
    ensures Mul(a, b) == 0 <==> a == 0 || b == 0
  {
    MulZeroLeft(b);
    if a != 0 && b != 0 {
      MulExp(Log(a), Log(b)); ExpNonZero(Log(a) + Log(b));
    }
  }

  /** Every non-zero byte has a multiplicative inverse. */
  lemma MulInverse(a: Byte)
    requires a != 0
    ensures Mul(a, Exp(255 - Log(a))) == 1
  {
    GeneratorOrder(0); MulExp(Log(a), 255 - Log(a));
  }
}
