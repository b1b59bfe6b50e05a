/** Polynomials over GF(2), written as naturals: bit i is the coefficient of x^i.

    Addition is exclusive or, multiplication by x is doubling, and the product is the carry-less
    product.  The `uint64` operators that the bucket hash uses are defined here bit by bit.
 */
module Polynomials {

  function Pow2(k: nat): (r: nat)
    ensures 0 < r
  {
    if k == 0 then 1 else 2 * Pow2(k - 1)
  }

  function Xor(x: nat, y: nat): nat
    decreases x + y
  {
    if x == 0 && y == 0 then 0
    else (if x % 2 != y % 2 then 1 else 0) + 2 * Xor(x / 2, y / 2)
  }

  function And(x: nat, y: nat): nat
    decreases x
  {
    if x == 0 then 0
    else (if x % 2 == 1 && y % 2 == 1 then 1 else 0) + 2 * And(x / 2, y / 2)
  }

  /** The number of bits needed to write `x`. */
  function BitLen(x: nat): nat {
    if x == 0 then 0 else 1 + BitLen(x / 2)
  }

  /** The low `k` bits of `x`. */
  function Low(x: nat, k: nat): nat
    decreases k
  {
    if k == 0 then 0 else x % 2 + 2 * Low(x / 2, k - 1)
  }

  predicate Bit(x: nat, k: nat)
    decreases k
  {
    if k == 0 then x % 2 == 1 else Bit(x / 2, k - 1)
  }

  /** The carry-less product. */
  function Clmul(a: nat, b: nat): nat
    decreases b
  {
    if b == 0 then 0 else Xor(if b % 2 == 1 then a else 0, 2 * Clmul(a, b / 2))
  }

  // ---- Exclusive or -------------------------------------------------------------------------------

  lemma {:induction false} XorComm(x: nat, y: nat)
    ensures Xor(x, y) == Xor(y, x)
    decreases x + y
  {
    if x != 0 || y != 0 { XorComm(x / 2, y / 2); }
  }

  lemma {:induction false} XorZero(x: nat)
    ensures Xor(x, 0) == x && Xor(0, x) == x
  {
    if x != 0 { XorZero(x / 2); }
  }

  lemma {:induction false} XorSelf(x: nat)
    ensures Xor(x, x) == 0
  {
    if x != 0 { XorSelf(x / 2); }
  }

  lemma {:induction false} XorParts(x: nat, y: nat)
    ensures Xor(x, y) / 2 == Xor(x / 2, y / 2)
    ensures Xor(x, y) % 2 == if x % 2 != y % 2 then 1 else 0
  {
  }

  lemma {:induction false} XorAssoc(x: nat, y: nat, z: nat)
    ensures Xor(Xor(x, y), z) == Xor(x, Xor(y, z))
    decreases x + y + z
  {
    if x != 0 || y != 0 || z != 0 {
      XorParts(x, y);
      XorParts(y, z);
      XorParts(Xor(x, y), z);
      XorParts(x, Xor(y, z));
      XorAssoc(x / 2, y / 2, z / 2);
    }
  }

  lemma {:induction false} XorDouble(x: nat, y: nat)
    ensures Xor(2 * x, 2 * y) == 2 * Xor(x, y)
  {
    XorZero(0);
  }

  /** (a + b) + (c + d) == (a + c) + (b + d). */
  lemma {:induction false} XorSwap(a: nat, b: nat, c: nat, d: nat)
    ensures Xor(Xor(a, b), Xor(c, d)) == Xor(Xor(a, c), Xor(b, d))
  {
    XorAssoc(a, b, Xor(c, d));
    XorAssoc(b, c, d);
    XorComm(b, c);
    XorAssoc(c, b, d);
    XorAssoc(a, c, Xor(b, d));
  }

  /** x + y == z exactly when x == z + y. */
  lemma {:induction false} XorCancel(x: nat, y: nat)
    ensures Xor(Xor(x, y), y) == x
  {
    XorAssoc(x, y, y);
    XorSelf(y);
    XorZero(x);
  }

  lemma {:induction false} XorEqual(x: nat, y: nat)
    requires Xor(x, y) == 0
    ensures x == y
  {
    XorCancel(x, y);
    XorZero(y);
  }

  // ---- Low bits --------------------------------------------------------------------------------------

  lemma {:induction false} LowBound(x: nat, k: nat)
    ensures Low(x, k) < Pow2(k)
    decreases k
  {
    if k != 0 { LowBound(x / 2, k - 1); }
  }

  lemma {:induction false} LowId(x: nat, k: nat)
    requires x < Pow2(k)
    ensures Low(x, k) == x
    decreases k
  {
    if k != 0 { LowId(x / 2, k - 1); }
  }

  lemma {:induction false} LowLow(x: nat, j: nat, k: nat)
    requires k <= j
    ensures Low(Low(x, j), k) == Low(x, k)
    decreases k
  {
    if k != 0 {
      assert Low(x, j) % 2 == x % 2 && Low(x, j) / 2 == Low(x / 2, j - 1);
      LowLow(x / 2, j - 1, k - 1);
    }
  }

  lemma {:induction false} BitLow(x: nat, j: nat, k: nat)
    requires k < j
    ensures Bit(Low(x, j), k) == Bit(x, k)
    decreases k
  {
    assert Low(x, j) % 2 == x % 2 && Low(x, j) / 2 == Low(x / 2, j - 1);
    if k != 0 { BitLow(x / 2, j - 1, k - 1); }
  }

  lemma {:induction false} LowParts(x: nat, k: nat)
    requires 0 < k
    ensures Low(x, k) % 2 == x % 2 && Low(x, k) / 2 == Low(x / 2, k - 1)
  {
  }

  lemma {:induction false} XorLow(x: nat, y: nat, k: nat)
    ensures Low(Xor(x, y), k) == Xor(Low(x, k), Low(y, k))
    decreases k
  {
    if k != 0 {
      XorLow(x / 2, y / 2, k - 1);
      var l, r := Low(Xor(x, y), k), Xor(Low(x, k), Low(y, k));
      assert l / 2 == r / 2 && l % 2 == r % 2 by {
        XorParts(x, y);
        LowParts(Xor(x, y), k);
        LowParts(x, k);
        LowParts(y, k);
        XorParts(Low(x, k), Low(y, k));
      }
    }
  }

  lemma {:induction false} XorBound(x: nat, y: nat, k: nat)
    requires x < Pow2(k) && y < Pow2(k)
    ensures Xor(x, y) < Pow2(k)
    decreases k
  {
    if k != 0 {
      XorParts(x, y);
      XorBound(x / 2, y / 2, k - 1);
    }
  }

  /** A number below 2^(k+1) is its low k bits plus its bit k. */
  lemma {:induction false} SplitTop(x: nat, k: nat)
    requires x < Pow2(k + 1)
    ensures x == Xor(if Bit(x, k) then Pow2(k) else 0, Low(x, k))
    ensures Bit(x, k) <==> Pow2(k) <= x
    decreases k
  {
    if k == 0 {
      assert Pow2(1) == 2 * Pow2(0) == 2;
      XorZero(x);
    } else {
      SplitTop(x / 2, k - 1);
      var top := if Bit(x, k) then Pow2(k) else 0;
      assert top / 2 == if Bit(x / 2, k - 1) then Pow2(k - 1) else 0;
      assert Xor(top, Low(x, k)) % 2 == x % 2 && Xor(top, Low(x, k)) / 2 == x / 2 by {
        XorParts(top, Low(x, k));
        LowParts(x, k);
      }
    }
  }

  // ---- Masks and shifts ---------------------------------------------------------------------------------

  lemma {:induction false} AndMask(x: nat, k: nat)
    ensures And(x, Pow2(k) - 1) == Low(x, k)
    decreases k
  {
    if k == 0 {
      AndZero(x);
    } else {
      assert (Pow2(k) - 1) / 2 == Pow2(k - 1) - 1 && (Pow2(k) - 1) % 2 == 1;
      AndMask(x / 2, k - 1);
      if x == 0 { LowOfZero(k); }
    }
  }

  lemma {:induction false} AndZero(x: nat)
    ensures And(x, 0) == 0
  {
    if x != 0 { AndZero(x / 2); }
  }

  lemma {:induction false} LowOfZero(k: nat)
    ensures Low(0, k) == 0
  {
    if k != 0 { LowOfZero(k - 1); }
  }

  lemma {:induction false} AndBit(x: nat, k: nat)
    ensures And(x, Pow2(k)) != 0 <==> Bit(x, k)
    decreases k
  {
    if k == 0 {
      AndZero(x / 2);
    } else {
      assert Pow2(k) / 2 == Pow2(k - 1) && Pow2(k) % 2 == 0;
      AndBit(x / 2, k - 1);
      if x == 0 { BitOfZero(k); }
    }
  }

  lemma {:induction false} BitOfZero(k: nat)
    ensures !Bit(0, k)
  {
    if k != 0 { BitOfZero(k - 1); }
  }

  lemma {:induction false} BitLenMask(k: nat)
    ensures BitLen(Pow2(k) - 1) == k
  {
    if k != 0 {
      assert (Pow2(k) - 1) / 2 == Pow2(k - 1) - 1;
      BitLenMask(k - 1);
    }
  }

  // ---- The carry-less product --------------------------------------------------------------------------------

  lemma {:induction false} ClmulZero(b: nat)
    ensures Clmul(0, b) == 0
  {
    if b != 0 {
      ClmulZero(b / 2);
      XorZero(0);
    }
  }

  lemma {:induction false} ClmulDouble(a: nat, b: nat)
    ensures Clmul(2 * a, b) == 2 * Clmul(a, b)
    decreases b
  {
    if b != 0 {
      ClmulDouble(a, b / 2);
      XorDouble(if b % 2 == 1 then a else 0, 2 * Clmul(a, b / 2));
    }
  }

  lemma {:induction false} ClmulXorLeft(a: nat, b: nat, c: nat)
    ensures Clmul(Xor(a, b), c) == Xor(Clmul(a, c), Clmul(b, c))
    decreases c
  {
    XorZero(0);
    if c != 0 {
      ClmulXorLeft(a, b, c / 2);
      var x, y := if c % 2 == 1 then a else 0, if c % 2 == 1 then b else 0;
      XorDouble(Clmul(a, c / 2), Clmul(b, c / 2));
      XorSwap(x, 2 * Clmul(a, c / 2), y, 2 * Clmul(b, c / 2));
    }
  }

  lemma {:induction false} ClmulXorRight(a: nat, b: nat, c: nat)
    ensures Clmul(a, Xor(b, c)) == Xor(Clmul(a, b), Clmul(a, c))
    decreases b + c
  {
    XorZero(0);
    if b != 0 || c != 0 {
      ClmulXorRight(a, b / 2, c / 2);
      XorParts(b, c);
      var x, y := if b % 2 == 1 then a else 0, if c % 2 == 1 then a else 0;
      XorDouble(Clmul(a, b / 2), Clmul(a, c / 2));
      XorSwap(x, 2 * Clmul(a, b / 2), y, 2 * Clmul(a, c / 2));
      XorSelf(a);
      XorZero(a);
      ClmulUnfold(a, b);
      ClmulUnfold(a, c);
      ClmulUnfold(a, Xor(b, c));
    }
  }

  lemma {:induction false} ClmulUnfold(a: nat, b: nat)
    ensures Clmul(a, b) == Xor(if b % 2 == 1 then a else 0, 2 * Clmul(a, b / 2))
  {
    XorZero(0);
  }
}
