/** Exact real arithmetic shared by the star map modules: square roots known only by their
    squares, plane vectors, and finite sums. */
module Reals {

  datatype Point = Point(x: real, y: real)

  /** One of the two coordinates of a point. */
  datatype Axis = Horizontal | Vertical

  function Coordinate(p: Point, axis: Axis): real {
    if axis.Horizontal? then p.x else p.y
  }

  function Minus(a: Point, b: Point): Point {
    Point(a.x - b.x, a.y - b.y)
  }

  /** A product under a name of its own, so that equal factors give equal products. */
  function Times(a: real, b: real): real {
    a * b
  }

  function Dot(a: Point, b: Point): real {
    Times(a.x, b.x) + Times(a.y, b.y)
  }

  /** The squared length of a vector. */
  function Norm2(a: Point): real {
    Dot(a, a)
  }

  ghost predicate IsRootAt(root: real -> real, v: real) {
    v >= 0.0 ==> root(v) >= 0.0 && Times(root(v), root(v)) == v
  }

  /** `root` is a square root on the non-negative reals. */
  ghost predicate IsRoot(root: real -> real) {
    forall v: real :: IsRootAt(root, v)
  }

  /** The length of a vector, as `math.hypot` computes it over exact reals. */
  function Hypot(root: real -> real, a: Point): real {
    root(Norm2(a))
  }

  // ── Products ────────────────────────────────────────────────────────────────

  lemma Distribute(a: real, b: real, c: real)
    ensures Times(a + b, c) == Times(a, c) + Times(b, c)
    ensures Times(a - b, c) == Times(a, c) - Times(b, c)
  {
  }

  lemma Commute(a: real, b: real)
    ensures Times(a, b) == Times(b, a)
  {
  }

  lemma ProductPositive(a: real, b: real)
    requires a > 0.0 && b > 0.0
    ensures Times(a, b) > 0.0
  {
  }

  lemma ProductNonNegative(a: real, b: real)
    requires a >= 0.0 && b >= 0.0
    ensures Times(a, b) >= 0.0
  {
  }

  /** A non-negative factor keeps the order. */
  lemma ProductMonotone(a: real, b: real, c: real)
    requires a <= b && c >= 0.0
    ensures Times(a, c) <= Times(b, c)
  {
    ProductNonNegative(b - a, c);
    Distribute(b, a, c);
  }

  lemma CancelFactor(a: real, b: real, c: real)
    requires c > 0.0 && Times(a, c) <= Times(b, c)
    ensures a <= b
  {
    if a > b {
      ProductPositive(a - b, c);
      Distribute(a, b, c);
    }
  }

  lemma DivisionUndone(a: real, b: real)
    requires b != 0.0
    ensures Times(a / b, b) == a
  {
  }

  lemma NegatedSquare(a: real)
    ensures Times(-a, -a) == Times(a, a)
  {
  }

  lemma SquarePositive(a: real)
    ensures Times(a, a) >= 0.0
    ensures a != 0.0 ==> Times(a, a) > 0.0
  {
    NegatedSquare(a);
    if a > 0.0 {
      ProductPositive(a, a);
    } else if a < 0.0 {
      ProductPositive(-a, -a);
    }
  }

  /** Squares order non-negative reals as the reals themselves are ordered. */
  lemma SquareOrder(a: real, b: real)
    requires b >= 0.0 && Times(a, a) <= Times(b, b)
    ensures a <= b
  {
    if a > b {
      SquareIncreases(a, b);
    }
  }

  lemma SquareIncreases(a: real, b: real)
    requires a > b >= 0.0
    ensures Times(a, a) > Times(b, b)
  {
    ProductPositive(a - b, a + b);
    SquareDifference(a, b);
  }

  lemma SquareDifference(a: real, b: real)
    ensures Times(a - b, a + b) == Times(a, a) - Times(b, b)
  {
  }

  lemma ProductSquared(a: real, b: real)
    ensures Times(Times(a, b), Times(a, b)) == Times(Times(a, a), Times(b, b))
  {
  }

  // ── Lengths ─────────────────────────────────────────────────────────────────

  lemma HypotSquared(root: real -> real, a: Point)
    requires IsRoot(root)
    ensures Hypot(root, a) >= 0.0
    ensures Times(Hypot(root, a), Hypot(root, a)) == Norm2(a) >= 0.0
  {
    SquarePositive(a.x);
    SquarePositive(a.y);
    assert IsRootAt(root, Norm2(a));
  }

  lemma LengthPositive(root: real -> real, a: Point)
    requires IsRoot(root) && (a.x != 0.0 || a.y != 0.0)
    ensures Hypot(root, a) > 0.0
  {
    HypotSquared(root, a);
    SquarePositive(a.x);
    SquarePositive(a.y);
    assert Times(0.0, 0.0) == 0.0;
  }

  lemma LagrangeIdentity(v: Point, u: Point)
    ensures var cross := Times(v.x, u.y) - Times(v.y, u.x);
            Times(Dot(v, u), Dot(v, u)) + Times(cross, cross) == Times(Norm2(v), Norm2(u))
  {
  }

  /** Cauchy-Schwarz against a vector of length at most one. */
  lemma DotAtMostLength(root: real -> real, v: Point, u: Point)
    requires IsRoot(root) && Norm2(u) <= 1.0
    ensures Dot(v, u) <= Hypot(root, v)
  {
    HypotSquared(root, v);
    LagrangeIdentity(v, u);
    SquarePositive(Times(v.x, u.y) - Times(v.y, u.x));
    Commute(Norm2(v), Norm2(u));
    ProductMonotone(Norm2(u), 1.0, Norm2(v));
    assert Times(1.0, Norm2(v)) == Norm2(v);
    SquareOrder(Dot(v, u), Hypot(root, v));
  }

  /** A vector divided by its length has length one, and points along the vector. */
  lemma UnitVector(e: Point, h: real, u: Point)
    requires h > 0.0 && Times(h, h) == Norm2(e) && e == Point(Times(u.x, h), Times(u.y, h))
    ensures Norm2(u) == 1.0 && Dot(e, u) == h
  {
    var q := Times(h, h);
    ProductSquared(u.x, h);
    ProductSquared(u.y, h);
    Distribute(Times(u.x, u.x), Times(u.y, u.y), q);
    ProductPositive(h, h);
    assert Times(Norm2(u), q) == Times(1.0, q);
    CancelFactor(Norm2(u), 1.0, q);
    CancelFactor(1.0, Norm2(u), q);
    Regroup(u.x, h);
    Regroup(u.y, h);
    Distribute(Times(u.x, u.x), Times(u.y, u.y), h);
    assert Times(1.0, h) == h;
  }

  lemma Regroup(u: real, h: real)
    ensures Times(Times(u, h), u) == Times(Times(u, u), h)
  {
  }

  /** The square of a product of lengths bounds the square of the dot product. */
  lemma CauchySchwarz(root: real -> real, a: Point, b: Point)
    requires IsRoot(root)
    ensures Dot(a, b) <= Times(Hypot(root, a), Hypot(root, b))
  {
    HypotSquared(root, a);
    HypotSquared(root, b);
    ProductNonNegative(Hypot(root, a), Hypot(root, b));
    ProductSquared(Hypot(root, a), Hypot(root, b));
    LagrangeIdentity(a, b);
    SquarePositive(Times(a.x, b.y) - Times(a.y, b.x));
    SquareOrder(Dot(a, b), Times(Hypot(root, a), Hypot(root, b)));
  }

  lemma SumSquared(a: Point, b: Point)
    ensures Norm2(Point(a.x + b.x, a.y + b.y)) == Norm2(a) + 2.0 * Dot(a, b) + Norm2(b)
  {
  }

  lemma BinomialSquared(a: real, b: real)
    ensures Times(a + b, a + b) == Times(a, a) + 2.0 * Times(a, b) + Times(b, b)
  {
  }

  lemma TriangleInequality(root: real -> real, a: Point, b: Point)
    requires IsRoot(root)
    ensures Hypot(root, Point(a.x + b.x, a.y + b.y)) <= Hypot(root, a) + Hypot(root, b)
  {
    var c, s := Point(a.x + b.x, a.y + b.y), Hypot(root, a) + Hypot(root, b);
    CauchySchwarz(root, a, b);
    HypotSquared(root, a);
    HypotSquared(root, b);
    HypotSquared(root, c);
    SumSquared(a, b);
    BinomialSquared(Hypot(root, a), Hypot(root, b));
    SquareOrder(Hypot(root, c), s);
  }

  // ── Sums ────────────────────────────────────────────────────────────────────

  /** A matrix of real numbers, read at non-negative indices only. */
  type Table = (int, int) -> real

  /** The sum of the first `n` entries of row `i`. */
  ghost function RowSum(f: Table, i: int, n: nat): real {
    if n == 0 then 0.0 else RowSum(f, i, n - 1) + f(i, n - 1)
  }

  /** The sum of the first `n` entries of each of the first `m` rows. */
  ghost function Sum2(f: Table, m: nat, n: nat): real {
    if m == 0 then 0.0 else Sum2(f, m - 1, n) + RowSum(f, m - 1, n)
  }

  /** The sum over the pairs `j < i < n`. */
  ghost function PairSum(f: Table, n: nat): real {
    if n == 0 then 0.0 else PairSum(f, n - 1) + RowSum(f, n - 1, n - 1)
  }

  lemma {:induction false} RowSumLinear(h: Table, a: real, f: Table, b: real, g: Table, i: int, n: nat)
    requires forall j :: 0 <= j < n ==> h(i, j) == Times(a, f(i, j)) + Times(b, g(i, j))
    ensures RowSum(h, i, n) == Times(a, RowSum(f, i, n)) + Times(b, RowSum(g, i, n))
  {
    if n > 0 {
      RowSumLinear(h, a, f, b, g, i, n - 1);
    }
  }

  lemma {:induction false} Sum2SameRows(f: Table, g: Table, m: nat, n: nat)
    requires forall i :: 0 <= i < m ==> RowSum(f, i, n) == RowSum(g, i, n)
    ensures Sum2(f, m, n) == Sum2(g, m, n)
  {
    if m > 0 {
      Sum2SameRows(f, g, m - 1, n);
    }
  }

  lemma {:induction false} RowSumAdds(h: Table, f: Table, g: Table, i: int, n: nat)
    requires forall j :: 0 <= j < n ==> h(i, j) == f(i, j) + g(i, j)
    ensures RowSum(h, i, n) == RowSum(f, i, n) + RowSum(g, i, n)
  {
    if n > 0 {
      RowSumAdds(h, f, g, i, n - 1);
    }
  }

  lemma {:induction false} Sum2Adds(h: Table, f: Table, g: Table, m: nat, n: nat)
    requires forall i, j :: 0 <= i < m && 0 <= j < n ==> h(i, j) == f(i, j) + g(i, j)
    ensures Sum2(h, m, n) == Sum2(f, m, n) + Sum2(g, m, n)
  {
    if m > 0 {
      Sum2Adds(h, f, g, m - 1, n);
      RowSumAdds(h, f, g, m - 1, n);
    }
  }

  lemma {:induction false} RowSumAtMost(f: Table, g: Table, i: int, n: nat)
    requires forall j :: 0 <= j < n ==> f(i, j) <= g(i, j)
    ensures RowSum(f, i, n) <= RowSum(g, i, n)
  {
    if n > 0 {
      RowSumAtMost(f, g, i, n - 1);
    }
  }

  lemma {:induction false} Sum2AtMost(f: Table, g: Table, m: nat, n: nat)
    requires forall i, j :: 0 <= i < m && 0 <= j < n ==> f(i, j) <= g(i, j)
    ensures Sum2(f, m, n) <= Sum2(g, m, n)
  {
    if m > 0 {
      Sum2AtMost(f, g, m - 1, n);
      RowSumAtMost(f, g, m - 1, n);
    }
  }

  /** Adding a column adds its entries, read as a row of the transposed table. */
  lemma {:induction false} PeelColumn(f: Table, g: Table, m: nat, n: nat)
    requires forall i :: 0 <= i < m ==> g(n, i) == f(i, n)
    ensures Sum2(f, m, n + 1) == Sum2(f, m, n) + RowSum(g, n, m)
  {
    if m > 0 {
      PeelColumn(f, g, m - 1, n);
    }
  }

  /** Summing rows first or columns first gives the same total. */
  lemma {:induction false} SumTransposed(f: Table, g: Table, m: nat, n: nat)
    requires forall i, j :: 0 <= i < m && 0 <= j < n ==> g(j, i) == f(i, j)
    ensures Sum2(f, m, n) == Sum2(g, n, m)
  {
    if n == 0 {
      EmptyRows(f, m);
    } else {
      SumTransposed(f, g, m, n - 1);
      PeelColumn(f, g, m, n - 1);
    }
  }

  lemma {:induction false} EmptyRows(f: Table, m: nat)
    ensures Sum2(f, m, 0) == 0.0
  {
    if m > 0 {
      EmptyRows(f, m - 1);
    }
  }

  /** Every unordered pair is counted twice among the ordered ones. */
  lemma {:induction false} PairSumIsHalf(f: Table, n: nat)
    requires forall i, j :: 0 <= i < n && 0 <= j < n ==> f(i, j) == f(j, i)
    requires forall i :: 0 <= i < n ==> f(i, i) == 0.0
    ensures Sum2(f, n, n) == 2.0 * PairSum(f, n)
  {
    if n > 0 {
      PairSumIsHalf(f, n - 1);
      PeelColumn(f, f, n - 1, n - 1);
    }
  }
}
