/** What the bucket of two ids is, said without the loop, and how ids spread over buckets at scale 8. */
module Buckets {
  import opened Words
  import opened Polynomials
  import opened Topology

  /** Equal ids have bucket 0. */
  lemma {:induction false} EqualIds(scale: nat, k: nat, id: nat)
    requires 0 < scale
    ensures Bucket(scale, k, id, id) == 0
  {
    XorSelf(id);
  }

  /** The bucket does not depend on which id is which. */
  lemma {:induction false} SwappedIds(scale: nat, k: nat, thread: nat, chunk: nat)
    requires 0 < scale
    ensures Bucket(scale, k, thread, chunk) == Bucket(scale, k, chunk, thread)
  {
    XorComm(thread, chunk);
    assert thread % scale + chunk % scale == chunk % scale + thread % scale;
  }

  // ---- Scale 8 -------------------------------------------------------------------------------------------

  /** The factor that two ids select at scale 8; the largest entry acts as zero. */
  function Factor(row: nat, col: nat): nat {
    ((row + col) % 8 + 1) % 8
  }

  lemma {:induction false} BucketAt8(thread: nat, chunk: nat, k: nat)
    requires k == 3
    ensures Bucket(8, k, thread, chunk) == Product(Factor(thread % 8, chunk % 8), Xor(thread, chunk), k, POLY8)
    ensures Factor(thread % 8, chunk % 8) < 8
            && (Factor(thread % 8, chunk % 8) == 0 <==> (thread % 8 + chunk % 8) % 8 == 7)
  {
    FactorIs(thread % 8, chunk % 8, k);
    BucketIs(thread, chunk, k);
  }

  lemma {:induction false} BucketIs(thread: nat, chunk: nat, k: nat)
    ensures Bucket(8, k, thread, chunk)
            == Product(Low(Entry(8, thread % 8, chunk % 8), k), Xor(thread, chunk), k, POLY8)
  {
  }

  lemma {:induction false} FactorIs(r: nat, c: nat, k: nat)
    requires r < 8 && c < 8 && k == 3
    ensures Low(Entry(8, r, c), k) == Factor(r, c) < 8
    ensures Factor(r, c) == 0 <==> (r + c) % 8 == 7
  {
    var sum := (r + c) % 8;
    EntryIs(r, c, sum);
    EntryLow(sum + 1, k);
    NextOf(sum);
  }

  lemma {:induction false} EntryIs(r: nat, c: nat, sum: nat)
    requires r < 8 && c < 8 && sum == (r + c) % 8
    ensures Entry(8, r, c) == sum + 1 && sum < 8
  {
    SmallRemainder(sum + 1, UINT32);
  }

  lemma {:induction false} NextOf(sum: nat)
    requires sum < 8
    ensures (sum + 1) % 8 < 8 && ((sum + 1) % 8 == 0 <==> sum == 7)
  {
  }

  lemma {:induction false} EntryLow(entry: nat, k: nat)
    requires 1 <= entry <= 8 && k == 3
    ensures Low(entry, k) == entry % 8
  {
    assert Pow2(k) == 8 by { PowersOfX(0, k, POLY8); }
    if entry == 8 { LowDrop(entry, k); LowOfZero(k); } else { LowId(entry, k); }
  }

  /** The product with 8 d shifts three times. */
  lemma {:induction false} Eightfold(d: nat, k: nat)
    requires d < 8 && k == 3
    ensures Product(1, 8 * d, k, POLY8) == Step8(Step8(Step8(d)))
    ensures Product(1, d, k, POLY8) == d
  {
    SmallProduct(d, k);
    Twice(d, 2 * d, k);
    Twice(2 * d, 4 * d, k);
    Twice(4 * d, 8 * d, k);
  }

  lemma {:induction false} SmallProduct(d: nat, k: nat)
    requires d < 8 && k == 3
    ensures Product(1, d, k, POLY8) == d
  {
    PowersOfX(0, k, POLY8);
    ResidueOfB(d, k, POLY8);
    CongruentRefl(d, Modulus(k, POLY8));
    ResidueUnique(Product(1, d, k, POLY8), d, d, k, POLY8);
  }

  lemma {:induction false} Twice(b: nat, e: nat, k: nat)
    requires e == 2 * b && k == 3
    ensures Product(1, e, k, POLY8) == Step8(Product(1, b, k, POLY8))
  {
    PowersOfX(b, k, POLY8);
    Step8Is(1, k, POLY8);
    if b != 0 { XorZero(Product(2, b, k, POLY8)); }
  }

  /** The XOR of two numbers comes apart into the eights, `e`, and the rest. */
  lemma {:induction false} XorEights(x: nat, p: nat, c: nat, y: nat, q: nat, d: nat, e: nat, k: nat)
    requires c < 8 && d < 8 && Pow2(k) == 8 && x == 8 * p + c && y == 8 * q + d && e == 8 * Xor(p, q)
    ensures Xor(x, y) == Xor(e, Xor(c, d))
  {
    var p2, q2 := 2 * p, 2 * q;
    var p4, q4 := 2 * p2, 2 * q2;
    var p8, q8 := 2 * p4, 2 * q4;
    assert Xor(p8, c) == x by { Eights(p8, p, 0); WindowIndex(p8, c, k); }
    assert Xor(q8, d) == y by { Eights(q8, q, 0); WindowIndex(q8, d, k); }
    XorOctuple(p, q, p2, q2, p4, q4, p8, q8);
    XorSwap(p8, c, q8, d);
  }

  lemma {:induction false} Eights(x: nat, p: nat, c: nat)
    requires x == 8 * p + c && c < 8
    ensures x / 8 == p && x % 8 == c
  {
  }

  lemma {:induction false} SixtyFours(x: nat, u: nat, c: nat)
    requires x == 64 * u + c && c < 64
    ensures x / 64 == u
  {
  }

  lemma {:induction false} XorOctuple(p: nat, q: nat, p2: nat, q2: nat, p4: nat, q4: nat, p8: nat, q8: nat)
    requires p2 == 2 * p && p4 == 2 * p2 && p8 == 2 * p4 && q2 == 2 * q && q4 == 2 * q2 && q8 == 2 * q4
    ensures Xor(p8, q8) == 8 * Xor(p, q)
  {
    XorDouble(p4, q4);
    XorDouble(p2, q2);
    XorDouble(p, q);
  }

  lemma {:induction false} ProductOfXor(b: nat, d: nat, e: nat, k: nat)
    requires k == 3 && e == Xor(b, d)
    ensures Product(1, e, k, POLY8) == Xor(Product(1, b, k, POLY8), Product(1, d, k, POLY8))
  {
    PowersOfX(0, k, POLY8);
    ProductLinear(1, 0, b, d, k, POLY8);
  }

  /** The residue of the XOR of two ids, with the eights `e` apart. */
  lemma {:induction false} ResidueOfIds(x: nat, p: nat, c: nat, y: nat, q: nat, d: nat, e: nat, k: nat)
    requires c < 8 && d < 8 && k == 3 && x == 8 * p + c && y == 8 * q + d && e == 8 * Xor(p, q)
    ensures Product(1, Xor(x, y), k, POLY8) == Xor(Product(1, e, k, POLY8), Xor(c, d))
  {
    PowersOfX(0, k, POLY8);
    XorEights(x, p, c, y, q, d, e, k);
    var low := Xor(c, d);
    XorBound(c, d, k);
    SmallProduct(low, k);
    ProductOfXor(e, low, Xor(x, y), k);
  }

  function Cube(d: nat): nat {
    Step8(Step8(Step8(d)))
  }

  lemma {:induction false} CubeInjective(x: nat, y: nat)
    requires x < 8 && y < 8 && Cube(x) == Cube(y)
    ensures x == y
  {
  }

  lemma {:induction false} XorCancelLeft(r: nat, x: nat, y: nat)
    requires Xor(r, x) == Xor(r, y)
    ensures x == y
  {
    XorMoves(r, x, Xor(r, y));
    XorMoves(r, y, Xor(r, y));
  }

  /** A nonzero factor gives equal products to equal residues only. */
  lemma {:induction false} SameResidue(a: nat, b: nat, d: nat, k: nat)
    requires 1 <= a <= 7 && k == 3 && Product(a, b, k, POLY8) == Product(a, d, k, POLY8)
    ensures Product(1, b, k, POLY8) == Product(1, d, k, POLY8)
  {
    var e := Xor(b, d);
    PowersOfX(e, k, POLY8);
    ProductLinear(a, 0, b, d, k, POLY8);
    XorSelf(Product(a, b, k, POLY8));
    ProductAt8(a, e, k, POLY8);
    SmallIsZero(a, Product(1, e, k, POLY8));
    ProductOfXor(b, d, e, k);
    XorEqual(Product(1, b, k, POLY8), Product(1, d, k, POLY8));
  }

  // ---- Chunk ids eight apart --------------------------------------------------------------------------------

  /** The residue of eight times a number, by its own eights and the rest. */
  lemma {:induction false} ResidueOfEight(z: nat, e: nat, m: nat, w: nat, d: nat, k: nat)
    requires w < 8 && k == 3 && z == Xor(m, w) && m % 8 == 0 && e == 8 * z && d == 8 * m
    ensures Product(1, e, k, POLY8) == Xor(Product(1, d, k, POLY8), Cube(w))
  {
    var w2, w4, w8 := 2 * w, 4 * w, 8 * w;
    XorOctuple(m, w, 2 * m, w2, 4 * m, w4, d, w8);
    ProductOfXor(d, w8, e, k);
    Eightfold(w, k);
  }

  /** Ids taken apart twice: thread = 64 t + 8 s + r and chunk = 64 u + 8 i + c. */
  lemma {:induction false} StrideResidue(thread: nat, p: nat, t: nat, s: nat, r: nat, chunk: nat, q: nat, u: nat,
                                         i: nat, c: nat, m: nat, d: nat, k: nat)
    requires s < 8 && r < 8 && i < 8 && c < 8 && k == 3 && m == 8 * Xor(t, u) && d == 8 * m
    requires thread == 8 * p + r && p == 8 * t + s && chunk == 8 * q + c && q == 8 * u + i
    ensures Product(1, Xor(thread, chunk), k, POLY8)
            == Xor(Xor(Product(1, d, k, POLY8), Cube(Xor(s, i))), Xor(r, c))
  {
    var z := Xor(p, q);
    assert Pow2(k) == 8 by { PowersOfX(0, k, POLY8); }
    assert z == Xor(m, Xor(s, i)) by { XorEights(p, t, s, q, u, i, m, k); }
    assert Xor(s, i) < 8 by { XorBound(s, i, k); }
    assert m % 8 == 0 by { Eights(m, Xor(t, u), 0); }
    NextResidue(thread, p, r, chunk, q, c, z, m, Xor(s, i), d, k);
  }

  lemma {:induction false} NextResidue(thread: nat, p: nat, r: nat, chunk: nat, q: nat, c: nat, z: nat, m: nat, w: nat,
                                       d: nat, k: nat)
    requires r < 8 && c < 8 && w < 8 && k == 3 && z == Xor(p, q) && z == Xor(m, w) && m % 8 == 0 && d == 8 * m
    requires thread == 8 * p + r && chunk == 8 * q + c
    ensures Product(1, Xor(thread, chunk), k, POLY8) == Xor(Xor(Product(1, d, k, POLY8), Cube(w)), Xor(r, c))
  {
    var e := 8 * z;
    ResidueOfIds(thread, p, r, chunk, q, c, e, k);
    ResidueOfEight(z, e, m, w, d, k);
  }

  lemma {:induction false} ResiduesCollide(h: nat, e: nat, s: nat, i: nat, j: nat, k: nat)
    requires s < 8 && i < 8 && j < 8 && Pow2(k) == 8
    requires Xor(Xor(h, Cube(Xor(s, i))), e) == Xor(Xor(h, Cube(Xor(s, j))), e)
    ensures i == j
  {
    var x, y := Cube(Xor(s, i)), Cube(Xor(s, j));
    XorComm(Xor(h, x), e);
    XorComm(Xor(h, y), e);
    XorCancelLeft(e, Xor(h, x), Xor(h, y));
    XorCancelLeft(h, x, y);
    XorBound(s, i, k);
    XorBound(s, j, k);
    CubeInjective(Xor(s, i), Xor(s, j));
    XorCancelLeft(s, i, j);
  }

  /** Two chunk ids of one aligned window of 64 that agree in the last three bits have equal residues only if they
      are equal. */
  lemma {:induction false} StridesDiffer(thread: nat, x: nat, y: nat, k: nat)
    requires k == 3 && x / 64 == y / 64 && x % 8 == y % 8
    requires Product(1, Xor(thread, x), k, POLY8) == Product(1, Xor(thread, y), k, POLY8)
    ensures x == y
  {
    var p, t, s, r := thread / 8, thread / 64, thread / 8 % 8, thread % 8;
    var q, q1, u, i, j, c := x / 8, y / 8, x / 64, x / 8 % 8, y / 8 % 8, x % 8;
    InSixtyFours(thread);
    InSixtyFours(x);
    InSixtyFours(y);
    var m := 8 * Xor(t, u);
    var d := 8 * m;
    PowersOfX(0, k, POLY8);
    StrideResidue(thread, p, t, s, r, x, q, u, i, c, m, d, k);
    StrideResidue(thread, p, t, s, r, y, q1, u, j, c, m, d, k);
    ResiduesCollide(Product(1, d, k, POLY8), Xor(r, c), s, i, j, k);
  }

  lemma {:induction false} InSixtyFours(x: nat)
    ensures x == 8 * (x / 8) + x % 8 && x / 8 == 8 * (x / 64) + x / 8 % 8 && x % 8 < 8 && x / 8 % 8 < 8
  {
  }

  /** Chunk ids that differ by a multiple of eight within an aligned window of 64 have one bucket exactly when the
      ids select the largest entry of the matrix; otherwise eight such chunk ids have eight different buckets. */
  lemma {:induction false} StridesSpreadExactly(thread: nat, x: nat, y: nat, k: nat)
    requires k == 3 && x / 64 == y / 64 && x % 8 == y % 8 && x != y
    ensures Bucket(8, k, thread, x) == Bucket(8, k, thread, y) <==> (thread % 8 + x % 8) % 8 == 7
  {
    BucketAt8(thread, x, k);
    BucketAt8(thread, y, k);
    ProductsCollide(Factor(thread % 8, x % 8), thread, x, y, Xor(thread, x), Xor(thread, y), k);
  }

  lemma {:induction false} ProductsCollide(a: nat, thread: nat, x: nat, y: nat, m: nat, n: nat, k: nat)
    requires a < 8 && k == 3 && x / 64 == y / 64 && x % 8 == y % 8 && x != y && m == Xor(thread, x)
             && n == Xor(thread, y)
    ensures Product(a, m, k, POLY8) == Product(a, n, k, POLY8) <==> a == 0
  {
    if a == 0 {
      ZeroProduct(m, k, POLY8);
      ZeroProduct(n, k, POLY8);
    } else if Product(a, m, k, POLY8) == Product(a, n, k, POLY8) {
      StridesCollide(a, thread, x, y, m, n, k);
    }
  }

  lemma {:induction false} StridesCollide(a: nat, thread: nat, x: nat, y: nat, m: nat, n: nat, k: nat)
    requires 1 <= a <= 7 && k == 3 && x / 64 == y / 64 && x % 8 == y % 8 && m == Xor(thread, x) && n == Xor(thread, y)
    requires Product(a, m, k, POLY8) == Product(a, n, k, POLY8)
    ensures x == y
  {
    SameResidue(a, m, n, k);
    StridesDiffer(thread, x, y, k);
  }

  /** The j-th chunk id of the window of 64 of `x` that agrees with `x` in the last three bits. */
  function Stride(x: nat, j: nat): nat {
    x / 64 * 64 + 8 * j + x % 8
  }

  lemma {:induction false} StrideIn(x: nat, j: nat)
    requires j < 8
    ensures Stride(x, j) / 64 == x / 64 && Stride(x, j) % 8 == x % 8
  {
    var u, c, y := x / 64, x % 8, Stride(x, j);
    SixtyFours(y, u, 8 * j + c);
    Eights(y, 8 * u + j, c);
  }

  lemma {:induction false} BucketBelow(thread: nat, chunk: nat, k: nat)
    requires k == 3
    ensures Bucket(8, k, thread, chunk) < 8
  {
    BucketAt8(thread, chunk, k);
    PowersOfX(0, k, POLY8);
    ProductBound(Factor(thread % 8, chunk % 8), Xor(thread, chunk), k, POLY8);
  }

  /** Of eight such chunk ids each bucket gets exactly one. */
  lemma {:induction false} StridesHitEveryBucketOnce(thread: nat, x: nat, k: nat, v: nat) returns (j: nat)
    requires k == 3 && (thread % 8 + x % 8) % 8 != 7 && v < 8
    ensures j < 8 && Bucket(8, k, thread, Stride(x, j)) == v
    ensures forall i: nat :: i < 8 && Bucket(8, k, thread, Stride(x, i)) == v ==> i == j
  {
    var f := (i: nat) => Bucket(8, k, thread, Stride(x, i));
    forall i: nat | i < 8 ensures f(i) < 8 { BucketBelow(thread, Stride(x, i), k); }
    forall i: nat, n: nat | i < 8 && n < 8 && f(i) == f(n) ensures i == n { StrideOnce(thread, x, i, n, k); }
    j := InjectiveIsOnto(f, 8, v);
    forall i: nat | i < 8 && Bucket(8, k, thread, Stride(x, i)) == v ensures i == j { StrideOnce(thread, x, i, j, k); }
  }

  lemma {:induction false} StrideOnce(thread: nat, x: nat, i: nat, n: nat, k: nat)
    requires k == 3 && (thread % 8 + x % 8) % 8 != 7 && i < 8 && n < 8
    requires Bucket(8, k, thread, Stride(x, i)) == Bucket(8, k, thread, Stride(x, n))
    ensures i == n
  {
    StrideIn(x, i);
    StrideIn(x, n);
    if i != n { StridesSpreadExactly(thread, Stride(x, i), Stride(x, n), k); }
  }

  // ---- Consecutive chunk ids ---------------------------------------------------------------------------------

  /** The eight chunk ids of an aligned window of eight have eight different buckets. */
  ghost predicate ConsecutiveSpread(thread: nat, first: nat, k: nat) {
    forall x: nat, y: nat :: x / 8 == first / 8 && y / 8 == first / 8 && x != y ==>
      Bucket(8, k, thread, x) != Bucket(8, k, thread, y)
  }

  /** The bucket by the last three bits of the ids and the residue `h` of the others. */
  function Cell(r: nat, h: nat, j: nat): nat {
    Small(Factor(r, j), Xor(h, Xor(r, j)))
  }

  lemma {:induction false} BucketIsCell(thread: nat, chunk: nat, e: nat, h: nat, k: nat)
    requires k == 3 && e == 8 * Xor(thread / 8, chunk / 8) && h == Product(1, e, k, POLY8)
    ensures Bucket(8, k, thread, chunk) == Cell(thread % 8, h, chunk % 8)
  {
    BucketAt8(thread, chunk, k);
    ProductAt8(Factor(thread % 8, chunk % 8), Xor(thread, chunk), k, POLY8);
    ResidueOfIds(thread, thread / 8, thread % 8, chunk, chunk / 8, chunk % 8, e, k);
  }

  function Cells(r: nat, h: nat): (row: seq<nat>)
    ensures |row| == 8
  {
    seq(8, j requires 0 <= j < 8 => Cell(r, h, j))
  }

  ghost predicate Distinct(row: seq<nat>) {
    forall i, j :: 0 <= i < j < |row| ==> row[i] != row[j]
  }

  lemma {:induction false} SevenLess(x: nat, y: nat)
    requires x < 8 && y == 7 - x
    ensures Xor(7, x) == y
  {
    var x2, x4 := x / 2, x / 2 / 2;
    assert Xor(1, x4) == 1 - x4 && Xor(3, x2) == (1 - x2 % 2) + 2 * Xor(1, x4);
    assert Xor(7, x) == (1 - x % 2) + 2 * Xor(3, x2);
  }

  /** Two chunk ids of the window have bucket 0, one by its entry and one by its residue, unless `h` is 7. */
  lemma {:induction false} TwoZeros(r: nat, h: nat, k: nat)
    requires r < 8 && h < 8 && h != 7 && Pow2(k) == 8
    ensures !Distinct(Cells(r, h))
  {
    var i, j := 7 - r, Xor(h, r);
    SevenLess(r, i);
    assert Factor(r, i) == 0;
    XorBound(h, r, k);
    if i == j {
      XorComm(h, r);
      XorComm(7, r);
      XorCancelLeft(r, h, 7);
    }
    SmallZero(Factor(r, i), Xor(h, Xor(r, i)));
    XorBack(r, h, j);
    SmallZero(Factor(r, j), 0);
    var row := Cells(r, h);
    assert row[i] == row[j];
  }

  lemma {:induction false} XorBack(r: nat, h: nat, j: nat)
    requires j == Xor(h, r)
    ensures Xor(h, Xor(r, j)) == 0
  {
    XorComm(h, r);
    XorAssoc(r, r, h);
    XorSelf(r);
    XorZero(h);
    XorSelf(h);
  }

  lemma {:induction false} SmallZero(a: nat, r: nat)
    ensures Small(0, r) == 0 && Small(a, 0) == 0
  {
    XorZero(0);
  }

  /** The cell with `h == 7`, from its factor `a` and its residue `x`. */
  lemma {:induction false} CellAt(r: nat, j: nat, a: nat, x: nat, y: nat)
    requires j < 8 && a == Factor(r, j) && y == Xor(r, j) && x == Xor(7, y)
    ensures Cells(r, 7)[j] == Small(a, x)
  {
  }

  lemma {:induction false} Repeats(r: nat, i: nat, a: nat, x: nat, y: nat, j: nat, b: nat, z: nat, w: nat)
    requires i < j < 8 && a == Factor(r, i) && y == Xor(r, i) && x == Xor(7, y)
    requires b == Factor(r, j) && w == Xor(r, j) && z == Xor(7, w) && Small(a, x) == Small(b, z)
    ensures !Distinct(Cells(r, 7))
  {
    CellAt(r, i, a, x, y);
    CellAt(r, j, b, z, w);
    var row := Cells(r, 7);
    assert row[i] == row[j];
  }

  lemma {:induction false} SmallOne(x: nat)
    ensures Small(1, x) == x
  {
    XorZero(x);
  }

  lemma {:induction false} SmallTwo(x: nat, y: nat)
    requires y == Step8(x)
    ensures Small(2, x) == y
  {
    XorZero(y);
  }

  lemma {:induction false} SmallThree(x: nat, y: nat, z: nat)
    requires y == Step8(x) && z == Xor(x, y)
    ensures Small(3, x) == z
  {
    XorZero(z);
  }

  lemma {:induction false} SmallFive(x: nat, y: nat, z: nat)
    requires y == Step8(Step8(x)) && z == Xor(x, y)
    ensures Small(5, x) == z
  {
    XorZero(x);
  }

  lemma {:induction false} Repeat0()
    ensures !Distinct(Cells(0, 7))
  {
    SevenLess(0, 7);
    SevenLess(1, 6);
    SmallOne(7);
    SmallTwo(6, 7);
    Repeats(0, 0, 1, 7, 0, 1, 2, 6, 1);
  }

  lemma {:induction false} Repeat1()
    ensures !Distinct(Cells(1, 7))
  {
    SevenLess(1, 6);
    SevenLess(2, 5);
    SmallTwo(6, 7);
    SmallFive(5, 2, 7);
    Repeats(1, 0, 2, 6, 1, 3, 5, 5, 2);
  }

  lemma {:induction false} Repeat2()
    ensures !Distinct(Cells(2, 7))
  {
    SevenLess(2, 5);
    SevenLess(5, 2);
    SmallThree(5, 1, 4);
    SmallTwo(2, 4);
    Repeats(2, 0, 3, 5, 2, 7, 2, 2, 5);
  }

  lemma {:induction false} Repeat4()
    ensures !Distinct(Cells(4, 7))
  {
    SevenLess(0, 7);
    SevenLess(1, 6);
    SmallOne(7);
    SmallTwo(6, 7);
    Repeats(4, 4, 1, 7, 0, 5, 2, 6, 1);
  }

  lemma {:induction false} Repeat5()
    ensures !Distinct(Cells(5, 7))
  {
    SevenLess(1, 6);
    SevenLess(2, 5);
    SmallTwo(6, 7);
    SmallFive(5, 2, 7);
    Repeats(5, 4, 2, 6, 1, 7, 5, 5, 2);
  }

  lemma {:induction false} Repeat6()
    ensures !Distinct(Cells(6, 7))
  {
    SevenLess(5, 2);
    SevenLess(2, 5);
    SmallTwo(2, 4);
    SmallThree(5, 1, 4);
    Repeats(6, 3, 2, 2, 5, 4, 3, 5, 2);
  }

  const Squares: seq<nat> := [0, 1, 4, 5, 6, 7, 2, 3]

  lemma {:induction false} SmallSquares()
    ensures Small(0, 0) == 0 && Small(1, 1) == 1 && Small(2, 2) == 4 && Small(4, 4) == 6
  {
    XorZero(0);
    XorZero(1);
    XorZero(4);
    XorZero(6);
  }

  lemma {:induction false} OddSquares()
    ensures Small(3, 3) == 5 && Small(5, 5) == 7
  {
    assert Xor(3, 6) == 5 && Xor(5, 2) == 7;
    XorZero(5);
  }

  lemma {:induction false} LastSquares()
    ensures Small(6, 6) == 2 && Small(7, 7) == 3
  {
    assert Xor(0, 7) == 7 && Xor(7, 5) == 2;
    assert Xor(2, 1) == 3;
  }

  lemma {:induction false} SquareIs(j: nat, square: nat)
    requires j < 8 && square == Small(j, j)
    ensures square == Squares[j]
  {
    SmallSquares();
    OddSquares();
    LastSquares();
  }

  lemma {:induction false} TwoMore(j: nat)
    requires j < 4
    ensures Xor(2, j) == (j + 2) % 4
  {
    assert Xor(1, 0) == 1 && Xor(1, 1) == 0;
  }

  lemma {:induction false} FourMore(j: nat, s: nat)
    requires j < 8 && s == (j + 4) % 8
    ensures Xor(4, j) == s
  {
    TwoMore(j / 2);
  }

  lemma {:induction false} SevenXors(r: nat, j: nat, s: nat, y: nat)
    requires j < 8 && y == Xor(r, j) && if r == 7 then s == j else r == 3 && s == (j + 4) % 8
    ensures s == Xor(7, y)
  {
    XorAssoc(7, r, j);
    if r == 7 {
      XorSelf(7);
      XorZero(j);
    } else {
      assert Xor(7, 3) == 4;
      FourMore(j, s);
    }
  }

  lemma {:induction false} SquareFactor(r: nat, j: nat, s: nat)
    requires j < 8 && if r == 7 then s == j else r == 3 && s == (j + 4) % 8
    ensures s == Factor(r, j) && s < 8
  {
  }

  /** With `h == 7` the cells of rows 7 and 3 are the squares of j and of j + 4. */
  lemma {:induction false} SquareCell(r: nat, j: nat, s: nat, cell: nat)
    requires j < 8 && cell == Cells(r, 7)[j] && if r == 7 then s == j else r == 3 && s == (j + 4) % 8
    ensures s < 8 && cell == Squares[s]
  {
    var y, square := Xor(r, j), Small(s, s);
    SquareFactor(r, j, s);
    SevenXors(r, j, s, y);
    CellAt(r, j, s, s, y);
    SquareIs(s, square);
  }

  lemma {:induction false} Shift(r: nat, j: nat, d: nat, s: nat)
    requires (r == 3 || r == 7) && j < 8 && d == 7 - r && s == (j + d) % 8
    ensures s < 8 && if r == 7 then s == j else r == 3 && s == (j + 4) % 8
  {
  }

  lemma {:induction false} SquareAt(r: nat, j: nat, d: nat, s: nat, row: seq<nat>)
    requires row == Cells(r, 7) && (r == 3 || r == 7) && j < 8 && d == 7 - r && s == (j + d) % 8
    ensures s < 8 && row[j] == Squares[s]
  {
    Shift(r, j, d, s);
    SquareCell(r, j, s, row[j]);
  }

  lemma {:induction false} RowIsSquares(r: nat, row: seq<nat>, d: nat)
    requires row == Cells(r, 7) && d == 7 - r && (r == 3 || r == 7)
    ensures forall j :: 0 <= j < 8 ==> row[j] == Squares[(j + d) % 8]
  {
    forall j | 0 <= j < 8 ensures row[j] == Squares[(j + d) % 8] {
      var s := (j + d) % 8;
      SquareAt(r, j, d, s, row);
    }
  }

  lemma {:induction false} SquaresDiffer(row: seq<nat>, d: nat)
    requires |row| == 8 && (d == 0 || d == 4)
    requires forall j :: 0 <= j < 8 ==> row[j] == Squares[(j + d) % 8]
    ensures Distinct(row)
  {
    forall i, j | 0 <= i < j < 8 ensures row[i] != row[j] {
      SquaresApart((i + d) % 8, (j + d) % 8);
    }
  }

  lemma {:induction false} SquaresApart(i: nat, j: nat)
    requires i < 8 && j < 8 && i != j
    ensures Squares[i] != Squares[j]
  {
  }

  lemma {:induction false} SevenCells(r: nat)
    requires r < 8
    ensures Distinct(Cells(r, 7)) <==> r == 3 || r == 7
  {
    if
    case r == 3 || r == 7 => RowIsSquares(r, Cells(r, 7), 7 - r); SquaresDiffer(Cells(r, 7), 7 - r);
    case r == 0 => Repeat0();
    case r == 1 => Repeat1();
    case r == 2 => Repeat2();
    case r == 4 => Repeat4();
    case r == 5 => Repeat5();
    case r == 6 => Repeat6();
  }

  /** Consecutive chunk ids do not spread in general: they do exactly when the thread id ends in 3 or 7 modulo 8 and
      the XOR of the other bits of the ids leaves the remainder x^2 + x + 1. */
  lemma {:induction false} ConsecutiveSpreadExactly(thread: nat, first: nat, k: nat)
    requires k == 3
    ensures ConsecutiveSpread(thread, first, k)
            <==> (thread % 8 == 3 || thread % 8 == 7) && Residue(7, 8 * Xor(thread / 8, first / 8), k, 0x11B)
  {
    var e, r := 8 * Xor(thread / 8, first / 8), thread % 8;
    var h := Product(1, e, k, POLY8);
    PowersOfX(e, k, POLY8);
    SevenIsResidue(e, h, k);
    if h != 7 { TwoZeros(r, h, k); } else { SevenCells(r); }
    SpreadIsCells(thread, first, e, h, k);
  }

  lemma {:induction false} SevenIsResidue(e: nat, h: nat, k: nat)
    requires k == 3 && h == Product(1, e, k, POLY8)
    ensures Residue(7, e, k, POLY8) <==> h == 7
  {
    PowersOfX(0, k, POLY8);
    ResidueOfB(e, k, POLY8);
    if Residue(7, e, k, POLY8) { ResidueUnique(7, h, e, k, POLY8); }
  }

  lemma {:induction false} SpreadIsCells(thread: nat, first: nat, e: nat, h: nat, k: nat)
    requires k == 3 && e == 8 * Xor(thread / 8, first / 8) && h == Product(1, e, k, POLY8)
    ensures ConsecutiveSpread(thread, first, k) <==> Distinct(Cells(thread % 8, h))
  {
    var r, q := thread % 8, first / 8;
    var row := Cells(r, h);
    if ConsecutiveSpread(thread, first, k) {
      forall i, j | 0 <= i < j < 8 ensures row[i] != row[j] {
        var x, y := 8 * q + i, 8 * q + j;
        Eights(x, q, i);
        Eights(y, q, j);
        BucketIsCell(thread, x, e, h, k);
        BucketIsCell(thread, y, e, h, k);
      }
    }
    if Distinct(row) {
      forall x: nat, y: nat | x / 8 == q && y / 8 == q && x != y
        ensures Bucket(8, k, thread, x) != Bucket(8, k, thread, y)
      {
        InSixtyFours(x);
        InSixtyFours(y);
        BucketIsCell(thread, x, e, h, k);
        BucketIsCell(thread, y, e, h, k);
        assert x % 8 < y % 8 ==> row[x % 8] != row[y % 8];
        assert y % 8 < x % 8 ==> row[y % 8] != row[x % 8];
      }
    }
  }

  /** For one, thread 0 sends chunks 0 and 7 to one bucket. */
  lemma {:induction false} ChunksCollide(k: nat)
    requires k == 3
    ensures Bucket(8, k, 0, 0) == 0 && Bucket(8, k, 0, 7) == 0
  {
    EqualIds(8, k, 0);
    BucketAt8(0, 7, k);
    ZeroProduct(Xor(0, 7), k, POLY8);
  }
}
