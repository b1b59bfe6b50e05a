/** The bucket hash: scale discovery, the matrix of factors and the product in GF(2)[x] modulo a polynomial. */
module Topology {
  import opened Words
  import opened Polynomials

  // ---- The reference: residues modulo a polynomial of degree k ---------------------------------------

  /** x^k plus the low k bits of `poly`; the higher bits of `poly` play no part. */
  function Modulus(k: nat, poly: nat): nat {
    Xor(Pow2(k), Low(poly, k))
  }

  ghost predicate Congruent(p: nat, q: nat, m: nat) {
    exists h: nat :: Xor(p, q) == Clmul(m, h)
  }

  /** `r` is the remainder of `p` divided by the modulus of degree `k`. */
  ghost predicate Residue(r: nat, p: nat, k: nat, poly: nat) {
    r < Pow2(k) && Congruent(r, p, Modulus(k, poly))
  }

  lemma {:induction false} CongruentRefl(p: nat, m: nat)
    ensures Congruent(p, p, m)
  {
    XorSelf(p);
    assert Xor(p, p) == Clmul(m, 0);
  }

  lemma {:induction false} CongruentTrans(p: nat, q: nat, r: nat, m: nat)
    requires Congruent(p, q, m) && Congruent(q, r, m)
    ensures Congruent(p, r, m)
  {
    var g: nat :| Xor(p, q) == Clmul(m, g);
    var h: nat :| Xor(q, r) == Clmul(m, h);
    ClmulXorRight(m, g, h);
    XorAssoc(p, q, Xor(q, r));
    XorAssoc(q, q, r);
    XorSelf(q);
    XorZero(r);
    assert Xor(p, r) == Clmul(m, Xor(g, h));
  }

  lemma {:induction false} CongruentAdd(p: nat, q: nat, r: nat, s: nat, m: nat)
    requires Congruent(p, q, m) && Congruent(r, s, m)
    ensures Congruent(Xor(p, r), Xor(q, s), m)
  {
    var g: nat :| Xor(p, q) == Clmul(m, g);
    var h: nat :| Xor(r, s) == Clmul(m, h);
    ClmulXorRight(m, g, h);
    XorSwap(p, r, q, s);
    assert Xor(Xor(p, r), Xor(q, s)) == Clmul(m, Xor(g, h));
  }

  lemma {:induction false} CongruentSymm(p: nat, q: nat, m: nat)
    requires Congruent(p, q, m)
    ensures Congruent(q, p, m)
  {
    XorComm(p, q);
  }

  /** A nonzero multiple of a polynomial of degree k has degree at least k. */
  lemma {:induction false} MultipleDegree(m: nat, k: nat, h: nat) returns (d: nat)
    requires Pow2(k) <= m < Pow2(k + 1) && h != 0
    ensures Pow2(k + d) <= Clmul(m, h) < Pow2(k + d + 1)
    ensures Pow2(d) <= h < Pow2(d + 1)
    decreases h
  {
    ClmulUnfold(m, h);
    if h / 2 == 0 {
      d := 0;
      XorZero(m);
    } else {
      var e := MultipleDegree(m, k, h / 2);
      d := e + 1;
      var half := 2 * Clmul(m, h / 2);
      assert Pow2(k + d) == 2 * Pow2(k + e) && Pow2(k + d + 1) == 2 * Pow2(k + e + 1);
      var low := if h % 2 == 1 then m else 0;
      PowMonotone(k + 1, k + d);
      XorComm(low, half);
      TopSurvives(half, low, k + d);
    }
  }

  lemma {:induction false} PowMonotone(j: nat, k: nat)
    requires j <= k
    ensures Pow2(j) <= Pow2(k)
  {
    if j < k { PowMonotone(j, k - 1); }
  }

  lemma {:induction false} TopSurvives(x: nat, y: nat, i: nat)
    requires Pow2(i) <= x < Pow2(i + 1) && y < Pow2(i)
    ensures Pow2(i) <= Xor(x, y) < Pow2(i + 1)
    decreases i
  {
    XorParts(x, y);
    if i == 0 {
      XorZero(x);
    } else {
      TopSurvives(x / 2, y / 2, i - 1);
    }
  }

  lemma {:induction false} ModulusDegree(k: nat, poly: nat)
    ensures Pow2(k) <= Modulus(k, poly) < Pow2(k + 1)
  {
    LowBound(poly, k);
    TopSurvives(Pow2(k), Low(poly, k), k);
  }

  /** There is one remainder. */
  lemma {:induction false} ResidueUnique(r: nat, s: nat, p: nat, k: nat, poly: nat)
    requires Residue(r, p, k, poly) && Residue(s, p, k, poly)
    ensures r == s
  {
    var m := Modulus(k, poly);
    CongruentSymm(s, p, m);
    CongruentTrans(r, p, s, m);
    var h: nat :| Xor(r, s) == Clmul(m, h);
    XorBound(r, s, k);
    ModulusDegree(k, poly);
    if h != 0 {
      var d := MultipleDegree(m, k, h);
      PowMonotone(k, k + d);
    }
    XorEqual(r, s);
  }

  // ---- The product as the loop computes it --------------------------------------------------------------

  /** x times the polynomial `a` of degree below k, reduced. */
  function TimesX(a: nat, k: nat, poly: nat): nat {
    if Bit(2 * a, k) then Low(Xor(2 * a, poly), k) else Low(2 * a, k)
  }

  function Product(a: nat, b: nat, k: nat, poly: nat): nat
    decreases b
  {
    if b == 0 then 0 else Xor(if b % 2 == 1 then a else 0, Product(TimesX(a, k, poly), b / 2, k, poly))
  }

  lemma {:induction false} TimesXReduces(a: nat, k: nat, poly: nat)
    requires a < Pow2(k)
    ensures TimesX(a, k, poly) < Pow2(k)
    ensures Congruent(TimesX(a, k, poly), 2 * a, Modulus(k, poly))
    ensures Xor(TimesX(a, k, poly), 2 * a) == if Bit(2 * a, k) then Modulus(k, poly) else 0
  {
    var m := Modulus(k, poly);
    assert 2 * a < Pow2(k + 1);
    SplitTop(2 * a, k);
    LowBound(2 * a, k);
    LowBound(Xor(2 * a, poly), k);
    var l := Low(2 * a, k);
    if Bit(2 * a, k) {
      XorLow(2 * a, poly, k);
      XorComm(l, Low(poly, k));
      XorComm(Pow2(k), l);
      XorSwap(Low(poly, k), l, Pow2(k), l);
      XorSelf(l);
      XorZero(Xor(Low(poly, k), Pow2(k)));
      XorComm(Pow2(k), Low(poly, k));
      assert Xor(TimesX(a, k, poly), 2 * a) == m;
      ClmulUnfold(m, 1);
      XorZero(m);
      assert Clmul(m, 1) == m;
    } else {
      XorZero(l);
      XorSelf(l);
      assert Xor(TimesX(a, k, poly), 2 * a) == 0 == Clmul(m, 0);
    }
  }

  /** Reducing one factor does not change the class of a product. */
  lemma {:induction false} TimesXProduct(a: nat, k: nat, poly: nat, c: nat)
    requires a < Pow2(k)
    ensures Congruent(Clmul(TimesX(a, k, poly), c), 2 * Clmul(a, c), Modulus(k, poly))
  {
    TimesXReduces(a, k, poly);
    ClmulDouble(a, c);
    ClmulXorLeft(TimesX(a, k, poly), 2 * a, c);
    ClmulZero(c);
    var m := Modulus(k, poly);
    if Bit(2 * a, k) {
      assert Xor(Clmul(TimesX(a, k, poly), c), 2 * Clmul(a, c)) == Clmul(m, c);
    } else {
      assert Xor(Clmul(TimesX(a, k, poly), c), 2 * Clmul(a, c)) == 0 == Clmul(m, 0);
    }
  }

  /** The loop computes the remainder of the carry-less product. */
  lemma {:induction false} ProductIsResidue(a: nat, b: nat, k: nat, poly: nat)
    requires a < Pow2(k)
    ensures Residue(Product(a, b, k, poly), Clmul(a, b), k, poly)
    decreases b
  {
    var m := Modulus(k, poly);
    if b == 0 {
      CongruentRefl(0, m);
    } else {
      var x, y := TimesX(a, k, poly), if b % 2 == 1 then a else 0;
      TimesXReduces(a, k, poly);
      ProductIsResidue(x, b / 2, k, poly);
      TimesXProduct(a, k, poly, b / 2);
      CongruentTrans(Product(x, b / 2, k, poly), Clmul(x, b / 2), 2 * Clmul(a, b / 2), m);
      CongruentRefl(y, m);
      CongruentAdd(y, y, Product(x, b / 2, k, poly), 2 * Clmul(a, b / 2), m);
      XorBound(y, Product(x, b / 2, k, poly), k);
    }
  }

  /** The product is linear in each factor. */
  lemma {:induction false} ProductLinear(a: nat, c: nat, b: nat, d: nat, k: nat, poly: nat)
    requires a < Pow2(k) && c < Pow2(k)
    ensures Product(Xor(a, c), b, k, poly) == Xor(Product(a, b, k, poly), Product(c, b, k, poly))
    ensures Product(a, Xor(b, d), k, poly) == Xor(Product(a, b, k, poly), Product(a, d, k, poly))
  {
    var m := Modulus(k, poly);
    XorBound(a, c, k);
    ProductIsResidue(a, b, k, poly);
    ProductIsResidue(c, b, k, poly);
    ProductIsResidue(a, d, k, poly);
    ProductIsResidue(Xor(a, c), b, k, poly);
    ProductIsResidue(a, Xor(b, d), k, poly);
    ClmulXorLeft(a, c, b);
    ClmulXorRight(a, b, d);
    var p, q, r := Product(a, b, k, poly), Product(c, b, k, poly), Product(a, d, k, poly);
    CongruentAdd(p, Clmul(a, b), q, Clmul(c, b), m);
    CongruentAdd(p, Clmul(a, b), r, Clmul(a, d), m);
    XorBound(p, q, k);
    XorBound(p, r, k);
    ResidueUnique(Product(Xor(a, c), b, k, poly), Xor(p, q), Clmul(Xor(a, c), b), k, poly);
    ResidueUnique(Product(a, Xor(b, d), k, poly), Xor(p, r), Clmul(a, Xor(b, d)), k, poly);
  }

  // ---- gfMultiply ------------------------------------------------------------------------------------------

  lemma {:induction false} Pow2Byte(k: nat)
    ensures Pow2(k + 8) == 256 * Pow2(k)
  {
    assert Pow2(k + 4) == 2 * Pow2(k + 3) == 4 * Pow2(k + 2) == 8 * Pow2(k + 1) == 16 * Pow2(k);
    assert Pow2(k + 8) == 2 * Pow2(k + 7) == 4 * Pow2(k + 6) == 8 * Pow2(k + 5) == 16 * Pow2(k + 4);
  }

  lemma {:induction false} WordIsPow2()
    ensures Pow2(64) == WORD
  {
    Pow2Byte(0); Pow2Byte(8); Pow2Byte(16); Pow2Byte(24);
    Pow2Byte(32); Pow2Byte(40); Pow2Byte(48); Pow2Byte(56);
  }

  lemma {:induction false} LowDrop(x: nat, k: nat)
    requires x < Pow2(k + 1)
    ensures Low(x, k) == if Pow2(k) <= x then x - Pow2(k) else x
    decreases k
  {
    if k != 0 { LowDrop(x / 2, k - 1); }
  }

  /** Doubling and then cutting to k bits needs only the low k bits. */
  lemma {:induction false} DoubleLow(a: nat, k: nat)
    ensures Bit(2 * Low(a, k), k) == Bit(2 * a, k)
    ensures Low(2 * Low(a, k), k) == Low(2 * a, k)
  {
    if k != 0 {
      BitLow(a, k, k - 1);
      LowLow(a, k, k - 1);
    }
  }

  /** The doubled factor, cut to a word of n bits, shows the same bits up to k. */
  lemma {:induction false} DoubledWord(a: nat, k: nat, n: nat)
    requires Pow2(n) == WORD && a < WORD && k < n
    ensures Bit(2 * a % WORD, k) == Bit(2 * Low(a, k), k)
    ensures Low(2 * a % WORD, k) == Low(2 * Low(a, k), k)
  {
    assert Pow2(n + 1) == 2 * Pow2(n);
    LowDrop(2 * a, n);
    assert 2 * a % WORD == Low(2 * a, n);
    BitLow(2 * a, n, k);
    LowLow(2 * a, n, k);
    DoubleLow(a, k);
  }

  /** One round of the loop multiplies the factor by x and reduces it; bits of `a` and `poly` from k on do
      not matter. */
  lemma {:induction false} NextFactor(a: nat, k: nat, poly: nat)
    requires a < WORD && k < 64
    ensures var y := 2 * a % WORD;
            var z := if And(y, Pow2(k)) != 0 then Xor(y, poly) else y;
            And(z, Pow2(k) - 1) == TimesX(Low(a, k), k, poly)
  {
    WordIsPow2();
    DoubledWord(a, k, 64);
    NextFromDoubled(2 * a % WORD, 2 * Low(a, k), k, poly);
  }

  lemma {:induction false} NextFromDoubled(y: nat, x: nat, k: nat, poly: nat)
    requires Bit(y, k) == Bit(x, k) && Low(y, k) == Low(x, k)
    ensures And(if And(y, Pow2(k)) != 0 then Xor(y, poly) else y, Pow2(k) - 1)
            == if Bit(x, k) then Low(Xor(x, poly), k) else Low(x, k)
  {
    AndBit(y, k);
    XorLow(y, poly, k);
    XorLow(x, poly, k);
    AndMask(Xor(y, poly), k);
    AndMask(y, k);
  }

  /** One round of the loop moves one bit of the multiplier into the sum. */
  lemma {:induction false} ProductStep(out: nat, a: nat, b: nat, k: nat, poly: nat)
    requires b != 0
    ensures Xor(Low(out, k), Product(Low(a, k), b, k, poly))
            == Xor(Low(if b % 2 == 1 then Xor(out, a) else out, k), Product(TimesX(Low(a, k), k, poly), b / 2, k, poly))
  {
    var rest := Product(TimesX(Low(a, k), k, poly), b / 2, k, poly);
    XorLow(out, a, k);
    XorAssoc(Low(out, k), Low(a, k), rest);
    XorZero(rest);
  }

  /** The product that the source computes, for a scale of 2^k and any two 64-bit factors. */
  method GfMultiply(factor: nat, multiplier: nat, poly: nat, scale: nat, ghost k: nat) returns (r: nat)
    requires factor < WORD && multiplier < WORD && poly < WORD && k <= 62 && scale == Pow2(k)
    ensures r == Product(Low(factor, k), multiplier, k, poly)
    ensures Residue(r, Clmul(Low(factor, k), multiplier), k, poly)
  {
    var degree := BitLen(scale - 1);
    BitLenMask(k);
    var mask := scale - 1;
    var a: nat, b: nat, out: nat := factor, multiplier, 0;
    LowOfZero(k);
    XorZero(Product(Low(factor, k), multiplier, k, poly));
    while b != 0
      invariant a < WORD
      invariant Product(Low(factor, k), multiplier, k, poly) == Xor(Low(out, k), Product(Low(a, k), b, k, poly))
    {
      ghost var before := a;
      ProductStep(out, a, b, k, poly);
      AndOne(b);
      NextFactor(a, k, poly);
      LowBound(a, k);
      TimesXReduces(Low(a, k), k, poly);
      if And(b, 1) == 1 { out := Xor(out, a); }
      b := b / 2;
      a := a * 2 % WORD;
      if And(a, scale) != 0 { a := Xor(a, poly); }
      a := And(a, Pow2(degree) - 1);
      FactorFits(TimesX(Low(before, k), k, poly), k);
    }
    XorZero(Low(out, k));
    AndMask(out, k);
    r := And(out, mask);
    LowBound(factor, k);
    ProductIsResidue(Low(factor, k), multiplier, k, poly);
  }

  lemma {:induction false} AndOne(b: nat)
    ensures And(b, 1) == b % 2
  {
    AndZero(b / 2);
  }

  /** A reduced factor is below 2^k, so cutting it to k bits or to a word leaves it alone. */
  lemma {:induction false} FactorFits(a: nat, k: nat)
    requires k <= 62 && a < Pow2(k)
    ensures a < WORD && Low(a, k) == a
  {
    LowId(a, k);
    WordIsPow2();
    PowMonotone(k, 64);
  }

  /** A factor of 2^k, which is the largest entry of the matrix, acts as zero. */
  lemma {:induction false} ScaleActsAsZero(b: nat, k: nat, poly: nat)
    ensures Product(Low(Pow2(k), k), b, k, poly) == 0
  {
    LowDrop(Pow2(k), k);
    ZeroProduct(b, k, poly);
  }

  lemma {:induction false} ZeroProduct(b: nat, k: nat, poly: nat)
    ensures Product(0, b, k, poly) == 0
  {
    ProductIsResidue(0, b, k, poly);
    ClmulZero(b);
    CongruentRefl(0, Modulus(k, poly));
    ResidueUnique(Product(0, b, k, poly), 0, 0, k, poly);
  }

  // ---- Scale 8: the modulus is x^3 + x + 1, which is irreducible -----------------------------------------------

  const POLY8: nat := 0x11B

  lemma {:induction false} ModulusAt8()
    ensures Modulus(3, POLY8) == 11
  {
    assert Low(POLY8, 3) == 3;
    assert Xor(8, 3) == 11;
    assert Pow2(3) == 8;
  }

  lemma {:induction false} CongruentTimesX(p: nat, q: nat, m: nat)
    requires Congruent(p, q, m)
    ensures Congruent(2 * p, 2 * q, m)
  {
    var h: nat :| Xor(p, q) == Clmul(m, h);
    XorDouble(p, q);
    ClmulUnfold(m, 2 * h);
    XorZero(2 * Clmul(m, h));
    assert Xor(2 * p, 2 * q) == Clmul(m, 2 * h);
  }

  /** Multiplying by x before or after gives the same product. */
  lemma {:induction false} TimesXCommutes(a: nat, b: nat, k: nat, poly: nat)
    requires a < Pow2(k)
    ensures Product(TimesX(a, k, poly), b, k, poly) == TimesX(Product(a, b, k, poly), k, poly)
  {
    var m, p := Modulus(k, poly), Product(a, b, k, poly);
    ProductIsResidue(a, b, k, poly);
    TimesXReduces(a, k, poly);
    ProductIsResidue(TimesX(a, k, poly), b, k, poly);
    TimesXProduct(a, k, poly, b);
    TimesXReduces(p, k, poly);
    CongruentTimesX(p, Clmul(a, b), m);
    CongruentTrans(TimesX(p, k, poly), 2 * p, 2 * Clmul(a, b), m);
    CongruentSymm(Clmul(TimesX(a, k, poly), b), 2 * Clmul(a, b), m);
    CongruentTrans(TimesX(p, k, poly), 2 * Clmul(a, b), Clmul(TimesX(a, k, poly), b), m);
    ResidueUnique(Product(TimesX(a, k, poly), b, k, poly), TimesX(p, k, poly), Clmul(TimesX(a, k, poly), b), k, poly);
  }

  lemma {:induction false} ClmulOne(b: nat)
    ensures Clmul(1, b) == b
  {
    if b != 0 {
      ClmulOne(b / 2);
      var top := 2 * (b / 2);
      XorZero(top);
      XorParts(b % 2, top);
      XorZero(b / 2);
    }
  }

  /** x, x^2 and x^3 times the residues modulo x^3 + x + 1. */
  function Step8(r: nat): nat {
    match r
    case 1 => 2
    case 2 => 4
    case 3 => 6
    case 4 => 3
    case 5 => 1
    case 6 => 7
    case 7 => 5
    case _ => 0
  }

  lemma {:induction false} XorThree()
    ensures Low(POLY8, 3) == 3
    ensures Xor(0, 3) == 3 && Xor(2, 3) == 1 && Xor(4, 3) == 7 && Xor(6, 3) == 5
  {
  }

  lemma {:induction false} TimesXIs(r: nat, k: nat, poly: nat)
    requires r < Pow2(k)
    ensures TimesX(r, k, poly) == if Pow2(k) <= 2 * r then Xor(2 * r - Pow2(k), Low(poly, k)) else 2 * r
  {
    assert Pow2(k + 1) == 2 * Pow2(k);
    LowDrop(2 * r, k);
    SplitTop(2 * r, k);
    XorLow(2 * r, poly, k);
  }

  lemma {:induction false} Step8Is(r: nat, k: nat, poly: nat)
    requires r < 8 && k == 3 && poly == POLY8 && Pow2(k) == 8
    ensures TimesX(r, k, poly) == Step8(r) < 8
  {
    TimesXIs(r, k, poly);
    Step8Table(r, TimesX(r, k, poly), Low(poly, k));
  }

  lemma {:induction false} Step8Table(r: nat, t: nat, low: nat)
    requires r < 8 && low == Low(POLY8, 3) && t == if 8 <= 2 * r then Xor(2 * r - 8, low) else 2 * r
    ensures t == Step8(r) < 8
  {
    XorThree();
  }

  /** The product of `a` with anything whose residue is `r`. */
  function Small(a: nat, r: nat): nat {
    Xor(Xor(if a % 2 == 1 then r else 0, if a / 2 % 2 == 1 then Step8(r) else 0),
        if a / 4 % 2 == 1 then Step8(Step8(r)) else 0)
  }

  lemma {:induction false} SmallIsZero(a: nat, r: nat)
    requires 1 <= a <= 7 && r < 8
    ensures Small(a, r) == 0 <==> r == 0
  {
    XorZero(r);
    XorZero(Step8(r));
    XorZero(Step8(Step8(r)));
    if Small(a, r) == 0 && r != 0 {
      XorEqual(Xor(if a % 2 == 1 then r else 0, if a / 2 % 2 == 1 then Step8(r) else 0),
               if a / 4 % 2 == 1 then Step8(Step8(r)) else 0);
      SmallSums(r);
    }
  }

  /** Three successive multiples of a nonzero residue are independent. */
  lemma {:induction false} SmallSums(r: nat)
    requires 1 <= r <= 7
    ensures Xor(r, Step8(r)) != 0 && Xor(r, Step8(r)) != Step8(Step8(r))
    ensures r != Step8(Step8(r)) && Step8(r) != Step8(Step8(r)) && r != Step8(r)
  {
    assert Xor(1, 2) == 3 && Xor(2, 4) == 6 && Xor(3, 6) == 5 && Xor(4, 3) == 7;
    assert Xor(5, 1) == 4 && Xor(6, 7) == 1 && Xor(7, 5) == 2;
  }

  lemma {:induction false} SumOfThree(x: nat, y: nat, z: nat, b: nat, k: nat, poly: nat)
    requires x < Pow2(k) && y < Pow2(k) && z < Pow2(k)
    ensures Product(Xor(Xor(x, y), z), b, k, poly)
            == Xor(Xor(Product(x, b, k, poly), Product(y, b, k, poly)), Product(z, b, k, poly))
  {
    XorBound(x, y, k);
    ProductLinear(x, y, b, 0, k, poly);
    ProductLinear(Xor(x, y), z, b, 0, k, poly);
  }

  lemma {:induction false} BitsOfSmall(a: nat)
    requires a < 8
    ensures a == Xor(Xor(if a % 2 == 1 then 1 else 0, if a / 2 % 2 == 1 then 2 else 0), if a / 4 % 2 == 1 then 4 else 0)
  {
    assert Xor(0, 0) == 0 && Xor(1, 0) == 1 && Xor(0, 2) == 2 && Xor(1, 2) == 3;
    assert Xor(2, 0) == 2 && Xor(3, 0) == 3 && Xor(0, 4) == 4 && Xor(1, 4) == 5 && Xor(2, 4) == 6 && Xor(3, 4) == 7;
  }

  /** With the residue of `b` known, so are the products of 1, x and x^2 with `b`. */
  lemma {:induction false} PowersOfX(b: nat, k: nat, poly: nat)
    requires k == 3 && poly == POLY8
    ensures var r := Product(1, b, k, poly);
            r < 8 && Product(2, b, k, poly) == Step8(r) && Product(4, b, k, poly) == Step8(Step8(r))
    ensures Pow2(k) == 8
  {
    assert Pow2(3) == 8;
    var r := Product(1, b, k, poly);
    ProductIsResidue(1, b, k, poly);
    Step8Is(1, k, poly);
    Step8Is(2, k, poly);
    Step8Is(r, k, poly);
    Step8Is(Step8(r), k, poly);
    TimesXCommutes(1, b, k, poly);
    TimesXCommutes(2, b, k, poly);
  }

  lemma {:induction false} ProductAt8(a: nat, b: nat, k: nat, poly: nat)
    requires a < 8 && k == 3 && poly == POLY8
    ensures Product(a, b, k, poly) == Small(a, Product(1, b, k, poly))
  {
    PowersOfX(b, k, poly);
    ZeroProduct(b, k, poly);
    BitsOfSmall(a);
    SumOfThree(if a % 2 == 1 then 1 else 0, if a / 2 % 2 == 1 then 2 else 0, if a / 4 % 2 == 1 then 4 else 0, b, k,
        poly);
  }

  lemma {:induction false} ResidueOfB(b: nat, k: nat, poly: nat)
    ensures 1 < Pow2(k) ==> Residue(Product(1, b, k, poly), b, k, poly)
  {
    if 1 < Pow2(k) {
      ProductIsResidue(1, b, k, poly);
      ClmulOne(b);
    }
  }

  ghost predicate MultipleOf(b: nat, m: nat) {
    exists h: nat :: b == Clmul(m, h)
  }

  lemma {:induction false} ZeroMeansMultiple(b: nat, k: nat, poly: nat)
    requires 1 < Pow2(k)
    ensures Product(1, b, k, poly) == 0 <==> MultipleOf(b, Modulus(k, poly))
  {
    var m, r := Modulus(k, poly), Product(1, b, k, poly);
    ResidueOfB(b, k, poly);
    XorZero(b);
    if r == 0 {
      var h: nat :| Xor(r, b) == Clmul(m, h);
      assert b == Clmul(m, h);
    }
    if MultipleOf(b, m) {
      var h: nat :| b == Clmul(m, h);
      assert Xor(0, b) == Clmul(m, h);
      ResidueUnique(r, 0, b, k, poly);
    }
  }

  /** At scale 8 the product by a nonzero factor vanishes exactly on the multiples of x^3 + x + 1. */
  lemma {:induction false} ZeroExactlyOnMultiples(a: nat, b: nat, k: nat, poly: nat)
    requires 1 <= a <= 7 && k == 3 && poly == POLY8
    ensures Product(a, b, k, poly) == 0 <==> MultipleOf(b, 11)
  {
    ModulusAt8();
    PowersOfX(b, k, poly);
    ProductAt8(a, b, k, poly);
    SmallIsZero(a, Product(1, b, k, poly));
    ZeroMeansMultiple(b, k, poly);
  }

  lemma {:induction false} Product8Injective(a: nat, x: nat, y: nat, k: nat, poly: nat)
    requires 1 <= a <= 7 && x < 8 && y < 8 && k == 3 && poly == POLY8
    requires Product(a, x, k, poly) == Product(a, y, k, poly)
    ensures x == y
  {
    PowersOfX(Xor(x, y), k, poly);
    var d := Xor(x, y);
    XorBound(x, y, k);
    ProductLinear(a, 0, x, y, k, poly);
    XorSelf(Product(a, x, k, poly));
    ProductAt8(a, d, k, poly);
    SmallIsZero(a, Product(1, d, k, poly));
    ResidueOfB(d, k, poly);
    CongruentRefl(d, Modulus(k, poly));
    ResidueUnique(Product(1, d, k, poly), d, d, k, poly);
    XorEqual(x, y);
  }

  lemma {:induction false} WindowSum(q: nat, j: nat, k: nat)
    requires j < Pow2(k)
    ensures Xor(q * Pow2(k), j) == q * Pow2(k) + j
    decreases k
  {
    if k == 0 {
      XorZero(q);
    } else {
      assert q * Pow2(k) == 2 * (q * Pow2(k - 1));
      WindowSum(q, j / 2, k - 1);
      XorParts(q * Pow2(k), j);
    }
  }

  /** The bucket of the i-th multiplier of the window of eight that starts at `first`. */
  function WindowAt(a: nat, first: nat, i: nat, k: nat, poly: nat): nat {
    Product(a, first + i, k, poly)
  }

  lemma {:induction false} WindowIndex(first: nat, i: nat, k: nat)
    requires i < 8 && Pow2(k) == 8 && first % 8 == 0
    ensures Xor(first, i) == first + i
  {
    var q := first / 8;
    assert q * Pow2(k) == first;
    WindowSum(q, i, k);
  }

  lemma {:induction false} ProductBound(a: nat, b: nat, k: nat, poly: nat)
    requires a < Pow2(k)
    ensures Product(a, b, k, poly) < Pow2(k)
  {
    ProductIsResidue(a, b, k, poly);
  }

  lemma {:induction false} ProductOfSum(a: nat, b: nat, d: nat, e: nat, k: nat, poly: nat)
    requires a < Pow2(k) && Xor(b, d) == e
    ensures Product(a, e, k, poly) == Xor(Product(a, b, k, poly), Product(a, d, k, poly))
  {
    ProductLinear(a, 0, b, d, k, poly);
  }

  /** The i-th multiplier of a window is the sum of the window's first one and i, and so is its product. */
  lemma {:induction false} WindowShift(a: nat, first: nat, i: nat, e: nat, k: nat, poly: nat)
    requires a < 8 && i < 8 && Pow2(k) == 8 && first % 8 == 0 && e == first + i
    ensures Product(a, e, k, poly) == Xor(Product(a, first, k, poly), Product(a, i, k, poly))
  {
    assert Xor(first, i) == e by { WindowIndex(first, i, k); }
    ProductOfSum(a, first, i, e, k, poly);
  }

  lemma {:induction false} XorMoves(x: nat, y: nat, z: nat)
    ensures Xor(x, y) == z <==> y == Xor(x, z)
  {
    XorAssoc(x, x, y);
    XorAssoc(x, x, z);
    XorSelf(x);
    XorZero(y);
    XorZero(z);
  }

  /** At scale 8, for every nonzero factor, eight consecutive multipliers starting at a multiple of
      eight are sent to eight different buckets, and so to each bucket exactly once. */
  lemma {:induction false} WindowsHitEveryBucketOnce(a: nat, first: nat, k: nat, poly: nat, v: nat) returns (j: nat)
    requires 1 <= a <= 7 && k == 3 && poly == POLY8 && v < 8 && first % 8 == 0
    ensures j < 8 && WindowAt(a, first, j, k, poly) == v
    ensures forall i: nat :: i < 8 && WindowAt(a, first, i, k, poly) == v ==> i == j
  {
    PowersOfX(0, k, poly);
    var f := (i: nat) => WindowAt(a, first, i, k, poly);
    forall i: nat | i < 8 ensures f(i) < 8 { ProductBound(a, first + i, k, poly); }
    forall i: nat, n: nat | i < 8 && n < 8 && f(i) == f(n) ensures i == n {
      WindowInjective(a, first, i, n, k, poly);
    }
    j := InjectiveIsOnto(f, 8, v);
    forall i: nat | i < 8 && WindowAt(a, first, i, k, poly) == v ensures i == j {
      WindowInjective(a, first, i, j, k, poly);
    }
  }

  lemma {:induction false} WindowInjective(a: nat, first: nat, i: nat, n: nat, k: nat, poly: nat)
    requires 1 <= a <= 7 && k == 3 && poly == POLY8 && i < 8 && n < 8 && Pow2(k) == 8 && first % 8 == 0
    requires WindowAt(a, first, i, k, poly) == WindowAt(a, first, n, k, poly)
    ensures i == n
  {
    ShiftInjective(a, first, i, n, first + i, first + n, k, poly);
  }

  lemma {:induction false} ShiftInjective(a: nat, first: nat, i: nat, n: nat, ei: nat, en: nat, k: nat, poly: nat)
    requires 1 <= a <= 7 && k == 3 && poly == POLY8 && i < 8 && n < 8 && Pow2(k) == 8 && first % 8 == 0
    requires ei == first + i && en == first + n && Product(a, ei, k, poly) == Product(a, en, k, poly)
    ensures i == n
  {
    WindowShift(a, first, i, ei, k, poly);
    WindowShift(a, first, n, en, k, poly);
    var x, y, z := Product(a, first, k, poly), Product(a, i, k, poly), Product(a, n, k, poly);
    XorMoves(x, y, Xor(x, z));
    XorMoves(x, z, Xor(x, z));
    Product8Injective(a, i, n, k, poly);
  }

  /** A function that sends 0, ..., n - 1 to different values below n hits every value below n. */
  lemma {:induction false} InjectiveIsOnto(f: nat -> nat, n: nat, v: nat) returns (j: nat)
    requires v < n
    requires forall i: nat :: i < n ==> f(i) < n
    requires forall i: nat, j: nat :: i < n && j < n && f(i) == f(j) ==> i == j
    ensures j < n && f(j) == v
  {
    var hit := Image(f, n, n);
    FullSet(hit, n);
    assert v in hit;
    j :| j < n && f(j) == v;
  }

  lemma {:induction false} Image(f: nat -> nat, n: nat, m: nat) returns (hit: set<nat>)
    requires m <= n
    requires forall i: nat :: i < n ==> f(i) < n
    requires forall i: nat, j: nat :: i < n && j < n && f(i) == f(j) ==> i == j
    ensures |hit| == m
    ensures forall x :: x in hit ==> x < n && exists i: nat :: i < m && f(i) == x
    decreases m
  {
    if m == 0 {
      hit := {};
    } else {
      var rest := Image(f, n, m - 1);
      assert f(m - 1) !in rest;
      hit := rest + {f(m - 1)};
    }
  }

  lemma {:induction false} FullSet(s: set<nat>, n: nat)
    requires |s| == n && forall x :: x in s ==> x < n
    ensures forall x: nat :: x < n ==> x in s
  {
    if n != 0 {
      if n - 1 in s {
        FullSet(s - {n - 1}, n - 1);
      } else {
        TooSmall(s, n - 1);
      }
    }
  }

  lemma {:induction false} TooSmall(s: set<nat>, n: nat)
    requires forall x :: x in s ==> x < n
    ensures |s| <= n
  {
    if n == 0 {
      assert s == {};
    } else {
      TooSmall(s - {n - 1}, n - 1);
    }
  }

  // ---- The matrix of factors ------------------------------------------------------------------------------------

  const MIN_SCALE: nat := 8
  const UINT32: nat := 0x1_0000_0000

  /** An entry of the matrix, cut to 32 bits as it is stored. */
  function Entry(scale: nat, row: nat, col: nat): nat
    requires 0 < scale
  {
    ((row + col) % scale + 1) % UINT32
  }

  lemma {:induction false} SumMod(x: nat, y: nat, d: nat)
    requires x < d && y < d
    ensures (x + y) % d == if x + y < d then x + y else x + y - d
  {
    if d <= x + y {
      var z := x + y - d;
      assert (z + d) % d == z by { DropMultiple(z, d); }
    }
  }

  lemma {:induction false} DropMultiple(z: nat, d: nat)
    requires z < d
    ensures (z + d) % d == z
  {
  }

  lemma {:induction false} NarrowEntry(scale: nat, row: nat, col: nat)
    requires row < scale < UINT32 && col < scale
    ensures Entry(scale, row, col) == (if row + col < scale then row + col else row + col - scale) + 1
    ensures Entry(scale, col, row) == Entry(scale, row, col)
  {
    SumMod(row, col, scale);
    var x := (row + col) % scale + 1;
    assert col + row == row + col;
    SmallRemainder(x, UINT32);
  }

  /** As long as the entries fit 32 bits, every row and every column holds each of 1, ..., scale exactly once. */
  lemma {:induction false} EachValueOncePerLine(scale: nat, row: nat, v: nat) returns (col: nat)
    requires row < scale < UINT32 && 1 <= v <= scale
    ensures col < scale && Entry(scale, row, col) == v && Entry(scale, col, row) == v
    ensures forall d: nat :: d < scale && Entry(scale, row, d) == v ==> d == col
    ensures forall d: nat :: d < scale && Entry(scale, d, row) == v ==> d == col
  {
    col := if row <= v - 1 then v - 1 - row else v - 1 + scale - row;
    NarrowEntry(scale, row, col);
    forall d: nat | d < scale ensures Entry(scale, row, d) == v || Entry(scale, d, row) == v ==> d == col {
      NarrowEntry(scale, row, d);
    }
  }

  ghost predicate InRow(scale: nat, row: nat, v: nat)
    requires 0 < scale
  {
    exists col: nat :: col < scale && Entry(scale, row, col) == v
  }

  /** Once they do not, the value `scale` is missing: the matrix is a Latin square of 1, ..., scale exactly
      when its entries fit. */
  lemma {:induction false} LatinExactlyWhenNarrow(scale: nat)
    requires 0 < scale
    ensures scale < UINT32 <==> forall row: nat, v: nat :: row < scale && 1 <= v <= scale ==> InRow(scale, row, v)
  {
    if scale < UINT32 {
      forall row: nat, v: nat | row < scale && 1 <= v <= scale ensures InRow(scale, row, v) {
        var col := EachValueOncePerLine(scale, row, v);
      }
    } else {
      assert forall col: nat :: col < scale ==> Entry(scale, 0, col) != scale;
      assert !InRow(scale, 0, scale);
    }
  }

  method BuildPandiagonal(scale: nat) returns (matrix: array2<nat>)
    requires 0 < scale
    ensures fresh(matrix) && matrix.Length0 == scale && matrix.Length1 == scale
    ensures forall r, c :: 0 <= r < scale && 0 <= c < scale ==> matrix[r, c] == Entry(scale, r, c)
  {
    matrix := new nat[scale, scale];
    for row := 0 to scale
      invariant forall r, c :: 0 <= r < row && 0 <= c < scale ==> matrix[r, c] == Entry(scale, r, c)
    {
      for col := 0 to scale
        invariant forall r, c :: 0 <= r < row && 0 <= c < scale ==> matrix[r, c] == Entry(scale, r, c)
        invariant forall c :: 0 <= c < col ==> matrix[row, c] == Entry(scale, row, c)
      {
        matrix[row, col] := ((row + col) % scale + 1) % UINT32;
      }
    }
  }

  // ---- Scale discovery ---------------------------------------------------------------------------------------------

  /** The least power of two that is at least the number of cores and at least eight. */
  method DiscoverScale(cores: int) returns (n: nat, ghost k: nat)
    requires cores <= Pow2(62)
    ensures n == Pow2(k) && k <= 62
    ensures cores <= n && MIN_SCALE <= n
    ensures forall j: nat :: cores <= Pow2(j) && MIN_SCALE <= Pow2(j) ==> n <= Pow2(j)
  {
    if cores < MIN_SCALE {
      n, k := MIN_SCALE, 3;
      assert Pow2(3) == 8;
      return;
    }
    n, k := 1, 0;
    while n < cores
      invariant n == Pow2(k)
      invariant k == 0 || Pow2(k - 1) < cores
      decreases cores - n
    {
      n := 2 * n;
      k := k + 1;
    }
    PowOrder(k - 1, 62);
    forall j: nat | cores <= Pow2(j) ensures n <= Pow2(j) {
      PowOrder(k - 1, j);
      PowMonotone(k, j);
    }
  }

  /** Powers of two are ordered as their exponents are. */
  lemma {:induction false} PowOrder(i: nat, j: nat)
    requires Pow2(i) < Pow2(j)
    ensures i < j
  {
    if j <= i { PowMonotone(j, i); }
  }

  function PolynomialForScale(scale: nat): (poly: nat)
    ensures poly < WORD
  {
    if scale <= 8 then POLY8 else if scale <= 16 then 0x1002D else 0x40000007
  }

  // ---- The bucket ---------------------------------------------------------------------------------

  /** The bucket that two ids select at scale 2^k. */
  function Bucket(scale: nat, k: nat, thread: nat, chunk: nat): nat
    requires 0 < scale
  {
    BucketFrom(Entry(scale, thread % scale, chunk % scale), scale, k, thread, chunk)
  }

  lemma {:induction false} SmallRemainder(r: nat, d: nat)
    requires r < d
    ensures r % d == r
  {
  }

  /** The bucket that a matrix entry and two ids select. */
  function BucketFrom(entry: nat, scale: nat, k: nat, thread: nat, chunk: nat): nat {
    Product(Low(entry, k), Xor(thread, chunk), k, PolynomialForScale(scale))
  }

  /** A matrix entry and two ids select the remainder of the carry-less product of the entry's low bits and the XOR of
      the ids, modulo x^k plus the low part of the polynomial for the scale. */
  lemma {:induction false} SelectedIsRemainder(entry: nat, scale: nat, k: nat, thread: nat, chunk: nat)
    ensures var p := if scale <= 8 then 0x11B else if scale <= 16 then 0x1002D else 0x40000007;
            Residue(BucketFrom(entry, scale, k, thread, chunk), Clmul(Low(entry, k), Xor(thread, chunk)), k, p)
  {
    LowBound(entry, k);
    ProductIsResidue(Low(entry, k), Xor(thread, chunk), k, PolynomialForScale(scale));
  }

  /** For scales below 2^32 the entry is the sum of the two indices, cut to the scale, plus 1. */
  lemma {:induction false} BucketIsRemainder(scale: nat, k: nat, thread: nat, chunk: nat)
    requires 0 < scale < 0x1_0000_0000
    ensures var p := if scale <= 8 then 0x11B else if scale <= 16 then 0x1002D else 0x40000007;
            Residue(Bucket(scale, k, thread, chunk),
                    Clmul(Low((thread % scale + chunk % scale) % scale + 1, k), Xor(thread, chunk)), k, p)
  {
    var entry := (thread % scale + chunk % scale) % scale + 1;
    SmallRemainder(entry, UINT32);
    SelectedIsRemainder(entry, scale, k, thread, chunk);
  }

  /** For all 64-bit ids the matrix is indexed inside its bounds and the bucket is below the scale. */
  method BucketIn(matrix: array2<nat>, scale: nat, thread: nat, chunk: nat, ghost k: nat) returns (bucket: nat)
    requires k <= 62 && scale == Pow2(k) && thread < WORD && chunk < WORD
    requires matrix.Length0 == scale && matrix.Length1 == scale
    requires forall r, c :: 0 <= r < scale && 0 <= c < scale ==> matrix[r, c] < WORD
    ensures bucket < scale && bucket == BucketFrom(matrix[thread % scale, chunk % scale], scale, k, thread, chunk)
    ensures var p := if scale <= 8 then 0x11B else if scale <= 16 then 0x1002D else 0x40000007;
            Residue(bucket, Clmul(Low(matrix[thread % scale, chunk % scale], k), Xor(thread, chunk)), k, p)
  {
    var row, col := thread % scale, chunk % scale;
    var factor := matrix[row, col];
    var ids := Xor(thread, chunk);
    assert ids < WORD by { XorWord(thread, chunk, 64); }
    var poly := PolynomialForScale(scale);
    var r := GfMultiply(factor, ids, poly, scale, k);
    assert r < scale;
    SmallRemainder(r, scale);
    SelectedIsRemainder(factor, scale, k, thread, chunk);
    bucket := r % scale;
  }

  method BucketFor(matrix: array2<nat>, scale: nat, thread: nat, chunk: nat, ghost k: nat) returns (bucket: nat)
    requires k <= 62 && scale == Pow2(k) && thread < WORD && chunk < WORD
    requires matrix.Length0 == scale && matrix.Length1 == scale
    requires forall r, c :: 0 <= r < scale && 0 <= c < scale ==> matrix[r, c] == Entry(scale, r, c)
    ensures bucket < scale && bucket == Bucket(scale, k, thread, chunk)
    ensures var p := if scale <= 8 then 0x11B else if scale <= 16 then 0x1002D else 0x40000007;
            scale < 0x1_0000_0000
            ==> Residue(bucket, Clmul(Low((thread % scale + chunk % scale) % scale + 1, k), Xor(thread, chunk)), k, p)
  {
    if scale < 0x1_0000_0000 { BucketIsRemainder(scale, k, thread, chunk); }
    bucket := BucketIn(matrix, scale, thread, chunk, k);
  }

  lemma {:induction false} XorWord(x: nat, y: nat, n: nat)
    requires x < WORD && y < WORD && n == 64
    ensures Xor(x, y) < WORD
  {
    WordIsPow2();
    XorBound(x, y, n);
  }
}
