/** Stress majorisation of `scripts/layout_starmap.py`: every sweep moves each nebula to the
    weighted mean of the places its neighbours would like it to have, all from the old
    positions, and no sweep increases the stress. */
module StarmapStress {
  import opened Reals

  const STRESS_ITERATIONS: nat := 400

  /** The distance two coincident points are given. */
  const COINCIDENT_SPAN := 0.000000001

  const ORIGIN := Point(0.0, 0.0)

  /** Point `i` of a placement. */
  function At(x: seq<Point>, i: int): Point {
    if 0 <= i < |x| then x[i] else ORIGIN
  }

  /** The entry of a list of lists, zero outside it. */
  function Entry(rows: seq<seq<real>>, i: int, j: int): real {
    if 0 <= i < |rows| && 0 <= j < |rows[i]| then rows[i][j] else 0.0
  }

  ghost predicate Square(d: seq<seq<real>>, n: nat) {
    |d| == n && forall i :: 0 <= i < n ==> |d[i]| == n
  }

  /** Target distances as the placement needs them: symmetric, and positive off the diagonal. */
  ghost predicate Targets(d: seq<seq<real>>, n: nat) {
    && Square(d, n)
    && (forall i, j :: 0 <= i < n && 0 <= j < n && i != j ==> d[i][j] > 0.0)
    && (forall i, j :: 0 <= i < n && 0 <= j < n ==> d[i][j] == d[j][i])
  }

  /** Every pair weighs the inverse square of its target. */
  function Weight(d: seq<seq<real>>, i: int, j: int): real {
    var target := Entry(d, i, j);
    if i == j || Times(target, target) == 0.0 then 0.0 else 1.0 / Times(target, target)
  }

  /** How far the distance of one pair is from its target, squared and weighted. */
  ghost function PairStress(root: real -> real, d: seq<seq<real>>, x: seq<Point>, i: int, j: int): real {
    var off := Entry(d, i, j) - Hypot(root, Minus(At(x, i), At(x, j)));
    Times(Weight(d, i, j), Times(off, off))
  }

  ghost function StressTable(root: real -> real, d: seq<seq<real>>, x: seq<Point>): Table {
    (i, j) => PairStress(root, d, x, i, j)
  }

  /** The stress of a placement, over its unordered pairs. */
  ghost function Stress(root: real -> real, d: seq<seq<real>>, x: seq<Point>): real {
    PairSum(StressTable(root, d, x), |x|)
  }

  function Span(root: real -> real, e: Point): (span: real)
    ensures span != 0.0
  {
    var length := Hypot(root, e);
    if length == 0.0 then COINCIDENT_SPAN else length
  }

  /** Where point `j` would like point `i` to be: at the target distance from `j`, in the
      direction `i` has now. */
  function Pull(root: real -> real, d: seq<seq<real>>, x: seq<Point>, i: int, j: int): Point {
    var e := Minus(At(x, i), At(x, j));
    var ratio := Entry(d, i, j) / Span(root, e);
    Point(At(x, j).x + Times(ratio, e.x), At(x, j).y + Times(ratio, e.y))
  }

  function WeightTable(d: seq<seq<real>>): Table {
    (i, j) => Weight(d, i, j)
  }

  /** What column `j` adds to one coordinate of the weighted mean; a point does not pull itself. */
  function Pulls(root: real -> real, d: seq<seq<real>>, x: seq<Point>, axis: Axis): Table {
    (i, j) => if i == j then 0.0 else Times(Weight(d, i, j), Coordinate(Pull(root, d, x, i, j), axis))
  }

  ghost function TotalWeight(d: seq<seq<real>>, i: int, n: nat): real {
    RowSum(WeightTable(d), i, n)
  }

  /** The weighted mean of the places the other points pull `i` to. */
  ghost function SweptPoint(root: real -> real, d: seq<seq<real>>, x: seq<Point>, i: int): Point
    requires TotalWeight(d, i, |x|) > 0.0
  {
    var total := TotalWeight(d, i, |x|);
    Point(RowSum(Pulls(root, d, x, Horizontal), i, |x|) / total, RowSum(Pulls(root, d, x, Vertical), i, |x|) / total)
  }

  /** The placement after one sweep over `x`, every point moved from the old places. */
  ghost function SweepOf(root: real -> real, d: seq<seq<real>>, x: seq<Point>): (y: seq<Point>)
    requires Targets(d, |x|) && |x| >= 2
    ensures |y| == |x|
  {
    TotalsPositive(d, |x|);
    seq(|x|, i requires 0 <= i < |x| && TotalWeight(d, i, |x|) > 0.0 => SweptPoint(root, d, x, i))
  }

  /** The placement after `k` sweeps. */
  ghost function Sweeps(root: real -> real, d: seq<seq<real>>, x: seq<Point>, k: nat): (y: seq<Point>)
    requires Targets(d, |x|) && |x| >= 2
    ensures |y| == |x|
  {
    if k == 0 then x else SweepOf(root, d, Sweeps(root, d, x, k - 1))
  }

  /** The majorised placement: four hundred sweeps, or none for fewer than two nebulae. */
  ghost function Majorised(root: real -> real, d: seq<seq<real>>, x: seq<Point>): (y: seq<Point>)
    requires Targets(d, |x|)
    ensures |y| == |x|
  {
    if |x| < 2 then x else Sweeps(root, d, x, STRESS_ITERATIONS)
  }

  lemma TotalsPositive(d: seq<seq<real>>, n: nat)
    requires Targets(d, n) && n >= 2
    ensures forall i :: 0 <= i < n ==> TotalWeight(d, i, n) > 0.0
  {
    forall i | 0 <= i < n ensures TotalWeight(d, i, n) > 0.0 {
      TotalPositive(d, n, i, n);
    }
  }

  lemma {:induction false} TotalPositive(d: seq<seq<real>>, n: nat, i: nat, k: nat)
    requires Targets(d, n) && i < n && k <= n
    ensures TotalWeight(d, i, k) >= 0.0
    ensures k >= 2 || (k == 1 && i != 0) ==> TotalWeight(d, i, k) > 0.0
  {
    if k > 0 {
      TotalPositive(d, n, i, k - 1);
      if i != k - 1 {
        assert d[i][k - 1] > 0.0;
        WeightPositive(d[i][k - 1]);
      }
    }
  }

  lemma WeightPositive(t: real)
    requires t > 0.0
    ensures Times(t, t) != 0.0 && 1.0 / Times(t, t) > 0.0
  {
    ProductPositive(t, t);
    Reciprocal(Times(t, t));
  }

  lemma Reciprocal(a: real)
    requires a > 0.0
    ensures 1.0 / a > 0.0
  {
  }

  /** Every pair weighs the inverse square of its target, and its stress is the square of how far it is
      off, over the square of its target. */
  lemma StressIsRelative(root: real -> real, d: seq<seq<real>>, x: seq<Point>, i: nat, j: nat)
    requires Targets(d, |x|) && i < |x| && j < |x| && i != j
    ensures var off := d[i][j] - Hypot(root, Minus(x[i], x[j]));
            && Times(Weight(d, i, j), Times(d[i][j], d[i][j])) == 1.0
            && Times(PairStress(root, d, x, i, j), Times(d[i][j], d[i][j])) == Times(off, off)
  {
    var target, off := d[i][j], d[i][j] - Hypot(root, Minus(x[i], x[j]));
    var square := Times(target, target);
    WeightPositive(target);
    DivisionUndone(1.0, square);
    SwapFactors(Weight(d, i, j), Times(off, off), square);
    assert Times(1.0, Times(off, off)) == Times(off, off);
  }

  lemma SwapFactors(a: real, b: real, c: real)
    ensures Times(Times(a, b), c) == Times(Times(a, c), b)
  {
  }

  // ── One pair ────────────────────────────────────────────────────────────────

  /** The direction of a vector, zero for the zero vector. */
  ghost function Unit(root: real -> real, e: Point): Point {
    Point(e.x / Span(root, e), e.y / Span(root, e))
  }

  /** The direction from `j` to `i`. */
  ghost function Direction(root: real -> real, x: seq<Point>, i: int, j: int): Point {
    Unit(root, Minus(At(x, i), At(x, j)))
  }

  /** From where point `i` is to where point `j` would like it. */
  ghost function Gap(root: real -> real, d: seq<seq<real>>, x: seq<Point>, i: int, j: int): Point {
    GapOf(Entry(d, i, j), Direction(root, x, i, j), Minus(At(x, i), At(x, j)))
  }

  ghost function GapOf(target: real, u: Point, e: Point): Point {
    Point(Times(target, u.x) - e.x, Times(target, u.y) - e.y)
  }

  function Negated(a: Point): Point {
    Point(-a.x, -a.y)
  }

  lemma DirectionIsUnit(root: real -> real, e: Point)
    requires IsRoot(root)
    ensures Norm2(Unit(root, e)) <= 1.0 && Dot(e, Unit(root, e)) == Hypot(root, e)
  {
    if e == ORIGIN {
      ZeroVector(root);
    } else {
      LengthPositive(root, e);
      HypotSquared(root, e);
      UndoUnit(root, e);
      UnitVector(e, Hypot(root, e), Unit(root, e));
    }
  }

  lemma UndoUnit(root: real -> real, e: Point)
    requires Hypot(root, e) != 0.0
    ensures e == Point(Times(Unit(root, e).x, Hypot(root, e)), Times(Unit(root, e).y, Hypot(root, e)))
  {
    DivisionUndone(e.x, Hypot(root, e));
    DivisionUndone(e.y, Hypot(root, e));
  }

  lemma ZeroVector(root: real -> real)
    requires IsRoot(root)
    ensures Unit(root, ORIGIN) == ORIGIN && Dot(ORIGIN, ORIGIN) == 0.0 && Hypot(root, ORIGIN) == 0.0
  {
    ZeroTimes(0.0);
    RootOfZero(root);
    assert Span(root, ORIGIN) == COINCIDENT_SPAN;
  }

  lemma ZeroTimes(a: real)
    ensures Times(0.0, a) == 0.0
  {
  }

  lemma RootOfZero(root: real -> real)
    requires IsRoot(root)
    ensures root(0.0) == 0.0
  {
    var r := root(0.0);
    assert IsRootAt(root, 0.0);
    assert Times(r, r) == 0.0;
    SquarePositive(r);
  }

  lemma UnitNegated(root: real -> real, e: Point)
    requires IsRoot(root)
    ensures Unit(root, Negated(e)) == Negated(Unit(root, e))
  {
    NegatedSquare(e.x);
    NegatedSquare(e.y);
    assert Span(root, Negated(e)) == Span(root, e);
    NegatedQuotient(e.x, Span(root, e));
    NegatedQuotient(e.y, Span(root, e));
  }

  lemma NegatedQuotient(a: real, b: real)
    requires b != 0.0
    ensures (-a) / b == -(a / b)
  {
  }

  lemma GapNegated(root: real -> real, d: seq<seq<real>>, x: seq<Point>, i: int, j: int)
    requires IsRoot(root) && Entry(d, i, j) == Entry(d, j, i)
    ensures Gap(root, d, x, j, i) == Negated(Gap(root, d, x, i, j))
  {
    var e := Minus(At(x, i), At(x, j));
    assert Minus(At(x, j), At(x, i)) == Negated(e);
    UnitNegated(root, e);
    NegatedProduct(Entry(d, i, j), Unit(root, e).x);
    NegatedProduct(Entry(d, i, j), Unit(root, e).y);
  }

  lemma NegatedProduct(a: real, b: real)
    ensures Times(a, -b) == -Times(a, b)
  {
  }

  lemma OffSquared(target: real, h: real)
    ensures Times(target - h, target - h) == Times(target, target) - 2.0 * Times(target, h) + Times(h, h)
  {
  }

  /** How the majorising parabola of a pair changes when its difference moves from `e` by `g`. */
  lemma ParabolaStep(target: real, u: Point, e: Point, g: Point)
    ensures var f := Point(e.x + g.x, e.y + g.y);
            Norm2(f) - 2.0 * Times(target, Dot(f, u))
            == Norm2(e) - 2.0 * Times(target, Dot(e, u)) + Norm2(g) - 2.0 * Dot(g, GapOf(target, u, e))
  {
  }

  lemma DotDifference(p: Point, q: Point, c: Point)
    ensures Dot(Minus(p, q), c) == Dot(p, c) + Dot(q, Negated(c))
  {
  }

  lemma NormDifference(p: Point, q: Point)
    ensures Norm2(Minus(p, q)) <= 2.0 * Norm2(p) + 2.0 * Norm2(q)
  {
    SquarePositive(p.x + q.x);
    SquarePositive(p.y + q.y);
    Parallelogram(p.x, q.x);
    Parallelogram(p.y, q.y);
  }

  lemma Parallelogram(a: real, b: real)
    ensures Times(a - b, a - b) == 2.0 * Times(a, a) + 2.0 * Times(b, b) - Times(a + b, a + b)
  {
  }

  /** The squared error of one pair after its two ends moved by `p` and `q`. */
  lemma PairBound(root: real -> real, target: real, e: Point, p: Point, q: Point)
    requires IsRoot(root) && target > 0.0
    ensures var f := Point(e.x + p.x - q.x, e.y + p.y - q.y);
            var c := GapOf(target, Unit(root, e), e);
            var before, after := target - Hypot(root, e), target - Hypot(root, f);
            Times(after, after)
            <= Times(before, before) - 2.0 * (Dot(p, c) + Dot(q, Negated(c))) + 2.0 * (Norm2(p) + Norm2(q))
  {
    var g := Minus(p, q);
    var f := Point(e.x + g.x, e.y + g.y);
    var u := Unit(root, e);
    DirectionIsUnit(root, e);
    HypotSquared(root, e);
    HypotSquared(root, f);
    OffSquared(target, Hypot(root, e));
    OffSquared(target, Hypot(root, f));
    DotAtMostLength(root, f, u);
    ProductMonotone(Dot(f, u), Hypot(root, f), target);
    Commute(Dot(f, u), target);
    Commute(Hypot(root, f), target);
    ParabolaStep(target, u, e, g);
    DotDifference(p, q, GapOf(target, u, e));
    NormDifference(p, q);
  }

  // ── The whole sweep ─────────────────────────────────────────────────────────

  ghost function Move(x: seq<Point>, y: seq<Point>, i: int): Point {
    Minus(At(y, i), At(x, i))
  }

  ghost function Gaps(root: real -> real, d: seq<seq<real>>, x: seq<Point>, axis: Axis): Table {
    (i, j) => if i == j then 0.0 else Times(Weight(d, i, j), Coordinate(Gap(root, d, x, i, j), axis))
  }

  /** The weighted part of the move of `i` that follows its gap to `j`. */
  ghost function Followed(root: real -> real, d: seq<seq<real>>, x: seq<Point>, y: seq<Point>): Table {
    (i, j) => Times(Weight(d, i, j), Dot(Move(x, y, i), Gap(root, d, x, i, j)))
  }

  /** The weighted square of the move of `i`, once for every `j`. */
  ghost function Moved(d: seq<seq<real>>, x: seq<Point>, y: seq<Point>): Table {
    (i, j) => Times(Weight(d, i, j), Norm2(Move(x, y, i)))
  }

  lemma PullIsGap(root: real -> real, d: seq<seq<real>>, x: seq<Point>, i: int, j: int, axis: Axis)
    ensures Coordinate(Pull(root, d, x, i, j), axis)
            == Coordinate(At(x, i), axis) + Coordinate(Gap(root, d, x, i, j), axis)
  {
    var e := Minus(At(x, i), At(x, j));
    RatioFirst(Entry(d, i, j), Span(root, e), Coordinate(e, axis));
  }

  lemma RatioFirst(a: real, b: real, c: real)
    requires b != 0.0
    ensures Times(a / b, c) == Times(a, c / b)
  {
    assert a / b * c == a * (c / b);
  }

  lemma FromRatio(total: real, start: real, gap: real, pull: real, end: real)
    requires total > 0.0 && pull == Times(start, total) + gap && end == pull / total
    ensures Times(end - start, total) == gap
  {
    DivisionUndone(pull, total);
    Distribute(end, start, total);
  }

  /** The weighted pulls of a row: its own place at full weight, and its weighted gaps. */
  lemma PullsAreGaps(root: real -> real, d: seq<seq<real>>, x: seq<Point>, i: int, axis: Axis)
    ensures RowSum(Pulls(root, d, x, axis), i, |x|)
            == Times(Coordinate(At(x, i), axis), TotalWeight(d, i, |x|)) + RowSum(Gaps(root, d, x, axis), i, |x|)
  {
    var w, start := WeightTable(d), Coordinate(At(x, i), axis);
    var pulls, gaps := Pulls(root, d, x, axis), Gaps(root, d, x, axis);
    forall j | 0 <= j < |x| ensures pulls(i, j) == Times(start, w(i, j)) + Times(1.0, gaps(i, j)) {
      if i == j {
        ZeroRow(start, 1.0);
      } else {
        PullIsGap(root, d, x, i, j, axis);
        DistributeRight(w(i, j), start, Coordinate(Gap(root, d, x, i, j), axis));
      }
    }
    RowSumLinear(pulls, start, w, 1.0, gaps, i, |x|);
    OneTimes(RowSum(gaps, i, |x|));
  }

  lemma OneTimes(a: real)
    ensures Times(1.0, a) == a
  {
  }

  lemma DistributeRight(w: real, a: real, b: real)
    ensures Times(w, a + b) == Times(a, w) + Times(1.0, Times(w, b))
  {
  }

  /** The weighted move of a swept point is the sum of its weighted gaps. */
  lemma MoveBalancesGaps(root: real -> real, d: seq<seq<real>>, x: seq<Point>, i: int, axis: Axis)
    requires TotalWeight(d, i, |x|) > 0.0
    ensures Times(Coordinate(SweptPoint(root, d, x, i), axis) - Coordinate(At(x, i), axis), TotalWeight(d, i, |x|))
            == RowSum(Gaps(root, d, x, axis), i, |x|)
  {
    PullsAreGaps(root, d, x, i, axis);
    FromRatio(TotalWeight(d, i, |x|), Coordinate(At(x, i), axis), RowSum(Gaps(root, d, x, axis), i, |x|),
              RowSum(Pulls(root, d, x, axis), i, |x|), Coordinate(SweptPoint(root, d, x, i), axis));
  }

  lemma FollowedSum(root: real -> real, d: seq<seq<real>>, x: seq<Point>, y: seq<Point>, i: int)
    ensures var m := Move(x, y, i);
            RowSum(Followed(root, d, x, y), i, |x|)
            == Times(m.x, RowSum(Gaps(root, d, x, Horizontal), i, |x|))
               + Times(m.y, RowSum(Gaps(root, d, x, Vertical), i, |x|))
  {
    var m := Move(x, y, i);
    var gx, gy := Gaps(root, d, x, Horizontal), Gaps(root, d, x, Vertical);
    forall j | 0 <= j < |x|
      ensures Followed(root, d, x, y)(i, j) == Times(m.x, gx(i, j)) + Times(m.y, gy(i, j))
    {
      if i == j {
        ZeroTimes(Dot(m, Gap(root, d, x, i, j)));
        ZeroRow(m.x, m.y);
      } else {
        WeightedDot(Weight(d, i, j), m, Gap(root, d, x, i, j));
      }
    }
    RowSumLinear(Followed(root, d, x, y), m.x, gx, m.y, gy, i, |x|);
  }

  lemma MovedSum(d: seq<seq<real>>, x: seq<Point>, y: seq<Point>, i: int)
    ensures RowSum(Moved(d, x, y), i, |x|) == Times(Norm2(Move(x, y, i)), TotalWeight(d, i, |x|))
  {
    var m, w := Move(x, y, i), WeightTable(d);
    forall j | 0 <= j < |x|
      ensures Moved(d, x, y)(i, j) == Times(Norm2(m), w(i, j)) + Times(0.0, w(i, j))
    {
      Commute(w(i, j), Norm2(m));
      ZeroTimes(w(i, j));
    }
    RowSumLinear(Moved(d, x, y), Norm2(m), w, 0.0, w, i, |x|);
    ZeroTimes(TotalWeight(d, i, |x|));
  }

  /** Along one row the move follows its gaps exactly as far as it goes. */
  lemma RowBalance(root: real -> real, d: seq<seq<real>>, x: seq<Point>, y: seq<Point>, i: int)
    requires |y| == |x| && 0 <= i < |x| && TotalWeight(d, i, |x|) > 0.0 && y[i] == SweptPoint(root, d, x, i)
    ensures RowSum(Followed(root, d, x, y), i, |x|) == RowSum(Moved(d, x, y), i, |x|)
  {
    var m := Move(x, y, i);
    MoveBalancesGaps(root, d, x, i, Horizontal);
    MoveBalancesGaps(root, d, x, i, Vertical);
    FollowedSum(root, d, x, y, i);
    MovedSum(d, x, y, i);
    WeightedNorm(m, TotalWeight(d, i, |x|));
  }

  lemma WeightedDot(w: real, a: Point, b: Point)
    ensures Times(w, Dot(a, b)) == Times(a.x, Times(w, b.x)) + Times(a.y, Times(w, b.y))
  {
  }

  lemma WeightedNorm(a: Point, w: real)
    ensures Times(Norm2(a), w) == Times(a.x, Times(a.x, w)) + Times(a.y, Times(a.y, w))
  {
  }

  /** One pair after a sweep, in terms of the tables of both ends. */
  lemma PairDecrease(root: real -> real, d: seq<seq<real>>, x: seq<Point>, y: seq<Point>, i: int, j: int)
    requires IsRoot(root) && Targets(d, |x|) && |y| == |x| && 0 <= i < |x| && 0 <= j < |x|
    ensures PairStress(root, d, y, i, j)
            <= PairStress(root, d, x, i, j)
               - 2.0 * (Followed(root, d, x, y)(i, j) + Followed(root, d, x, y)(j, i))
               + 2.0 * (Moved(d, x, y)(i, j) + Moved(d, x, y)(j, i))
  {
    var w := Weight(d, i, j);
    assert Weight(d, j, i) == w;
    var e, p, q := Minus(At(x, i), At(x, j)), Move(x, y, i), Move(x, y, j);
    var f := Point(e.x + p.x - q.x, e.y + p.y - q.y);
    assert f == Minus(At(y, i), At(y, j));
    if i != j {
      var target, c := Entry(d, i, j), Gap(root, d, x, i, j);
      PairBound(root, target, e, p, q);
      GapNegated(root, d, x, i, j);
      WeightNonNegative(d, i, j);
      var before, after := target - Hypot(root, e), target - Hypot(root, f);
      WeightedBound(w, Times(after, after), Times(before, before), Dot(p, c), Dot(q, Negated(c)), Norm2(p), Norm2(q));
    } else {
      ZeroRow(Dot(p, Gap(root, d, x, i, j)), Norm2(p));
    }
  }

  /** An entry after a sweep against the one before, by what was followed and what was moved. */
  ghost predicate Decreases(sx: Table, sy: Table, a: Table, b: Table, i: int, j: int) {
    sy(i, j) <= sx(i, j) - 2.0 * (a(i, j) + a(j, i)) + 2.0 * (b(i, j) + b(j, i))
  }

  lemma PairDecreases(root: real -> real, d: seq<seq<real>>, x: seq<Point>, y: seq<Point>, i: int, j: int)
    requires IsRoot(root) && Targets(d, |x|) && |y| == |x| && 0 <= i < |x| && 0 <= j < |x|
    ensures Decreases(StressTable(root, d, x), StressTable(root, d, y), Followed(root, d, x, y), Moved(d, x, y), i, j)
  {
    PairDecrease(root, d, x, y, i, j);
  }

  lemma ZeroRow(a: real, b: real)
    ensures Times(0.0, a) == Times(0.0, b) == Times(a, 0.0) == Times(b, 0.0) == 0.0
  {
  }

  lemma WeightNonNegative(d: seq<seq<real>>, i: int, j: int)
    ensures Weight(d, i, j) >= 0.0
  {
    var t := Entry(d, i, j);
    SquarePositive(t);
    if i != j && Times(t, t) != 0.0 {
      Reciprocal(Times(t, t));
    }
  }

  lemma WeightedBound(w: real, after: real, before: real, a: real, b: real, m: real, n: real)
    requires w >= 0.0 && after <= before - 2.0 * (a + b) + 2.0 * (m + n)
    ensures Times(w, after) <= Times(w, before) - 2.0 * (Times(w, a) + Times(w, b)) + 2.0 * (Times(w, m) + Times(w, n))
  {
    ProductNonNegative(w, before - 2.0 * (a + b) + 2.0 * (m + n) - after);
    assert Times(w, before - 2.0 * (a + b) + 2.0 * (m + n) - after)
        == Times(w, before) - 2.0 * (Times(w, a) + Times(w, b)) + 2.0 * (Times(w, m) + Times(w, n)) - Times(w, after);
  }

  /** Tables that agree row by row cancel, however their entries are paired up. */
  lemma RowsCancel(sx: Table, sy: Table, a: Table, b: Table, n: nat)
    requires forall i, j :: 0 <= i < n && 0 <= j < n ==> Decreases(sx, sy, a, b, i, j)
    requires forall i :: 0 <= i < n ==> RowSum(a, i, n) == RowSum(b, i, n)
    ensures Sum2(sy, n, n) <= Sum2(sx, n, n)
  {
    var at: Table, bt: Table := (i, j) => a(j, i), (i, j) => b(j, i);
    var sent: Table, left: Table := (i, j) => a(i, j) + at(i, j), (i, j) => b(i, j) + bt(i, j);
    var gain: Table, loss: Table := (i, j) => sent(i, j) + sent(i, j), (i, j) => left(i, j) + left(i, j);
    var after: Table, before: Table := (i, j) => sy(i, j) + gain(i, j), (i, j) => sx(i, j) + loss(i, j);
    forall i, j | 0 <= i < n && 0 <= j < n ensures after(i, j) <= before(i, j) {
      assert Decreases(sx, sy, a, b, i, j);
    }
    Sum2AtMost(after, before, n, n);
    Sum2Adds(after, sy, gain, n, n);
    Sum2Adds(before, sx, loss, n, n);
    Sum2Adds(gain, sent, sent, n, n);
    Sum2Adds(loss, left, left, n, n);
    Sum2Adds(sent, a, at, n, n);
    Sum2Adds(left, b, bt, n, n);
    SumTransposed(a, at, n, n);
    SumTransposed(b, bt, n, n);
    Sum2SameRows(a, b, n, n);
  }

  lemma AllRowsBalance(root: real -> real, d: seq<seq<real>>, x: seq<Point>)
    requires Targets(d, |x|) && |x| >= 2
    ensures var y := SweepOf(root, d, x);
            forall i :: 0 <= i < |x|
              ==> RowSum(Followed(root, d, x, y), i, |x|) == RowSum(Moved(d, x, y), i, |x|)
  {
    var y := SweepOf(root, d, x);
    TotalsPositive(d, |x|);
    forall i | 0 <= i < |x|
      ensures RowSum(Followed(root, d, x, y), i, |x|) == RowSum(Moved(d, x, y), i, |x|)
    {
      RowBalance(root, d, x, y, i);
    }
  }

  lemma SumsDecrease(root: real -> real, d: seq<seq<real>>, x: seq<Point>, y: seq<Point>)
    requires IsRoot(root) && Targets(d, |x|) && |y| == |x|
    requires forall i :: 0 <= i < |x|
               ==> RowSum(Followed(root, d, x, y), i, |x|) == RowSum(Moved(d, x, y), i, |x|)
    ensures Sum2(StressTable(root, d, y), |x|, |x|) <= Sum2(StressTable(root, d, x), |x|, |x|)
  {
    var n, sx, sy := |x|, StressTable(root, d, x), StressTable(root, d, y);
    var a, b := Followed(root, d, x, y), Moved(d, x, y);
    forall i, j | 0 <= i < n && 0 <= j < n ensures Decreases(sx, sy, a, b, i, j) {
      PairDecreases(root, d, x, y, i, j);
    }
    RowsCancel(sx, sy, a, b, n);
  }

  lemma TwiceStress(root: real -> real, d: seq<seq<real>>, x: seq<Point>)
    requires Targets(d, |x|)
    ensures Sum2(StressTable(root, d, x), |x|, |x|) == 2.0 * Stress(root, d, x)
  {
    StressSymmetric(root, d, x);
    PairSumIsHalf(StressTable(root, d, x), |x|);
  }

  /** A sweep does not increase the stress. */
  lemma SweepLowersStress(root: real -> real, d: seq<seq<real>>, x: seq<Point>)
    requires IsRoot(root) && Targets(d, |x|) && |x| >= 2
    ensures Stress(root, d, SweepOf(root, d, x)) <= Stress(root, d, x)
  {
    var y := SweepOf(root, d, x);
    AllRowsBalance(root, d, x);
    SumsDecrease(root, d, x, y);
    TwiceStress(root, d, x);
    TwiceStress(root, d, y);
  }

  lemma StepLowersStress(root: real -> real, d: seq<seq<real>>, x: seq<Point>, k: nat)
    requires IsRoot(root) && Targets(d, |x|) && |x| >= 2
    ensures Stress(root, d, Sweeps(root, d, x, k + 1)) <= Stress(root, d, Sweeps(root, d, x, k))
  {
    SweepLowersStress(root, d, Sweeps(root, d, x, k));
  }

  lemma {:induction false} Descends(s: nat -> real, k: nat, m: nat)
    requires k <= m && forall i: nat :: s(i + 1) <= s(i)
    ensures s(m) <= s(k)
  {
    if k < m {
      Descends(s, k, m - 1);
      assert s(m - 1 + 1) <= s(m - 1);
    }
  }

  /** Hence no number of sweeps does, and more sweeps are never worse than fewer. */
  lemma SweepsLowerStress(root: real -> real, d: seq<seq<real>>, x: seq<Point>, k: nat, m: nat)
    requires IsRoot(root) && Targets(d, |x|) && |x| >= 2 && k <= m
    ensures Stress(root, d, Sweeps(root, d, x, m)) <= Stress(root, d, Sweeps(root, d, x, k))
  {
    var s := (i: nat) => Stress(root, d, Sweeps(root, d, x, i));
    forall i: nat ensures s(i + 1) <= s(i) {
      StepLowersStress(root, d, x, i);
    }
    Descends(s, k, m);
  }

  lemma StressSymmetric(root: real -> real, d: seq<seq<real>>, x: seq<Point>)
    requires Targets(d, |x|)
    ensures forall i, j :: 0 <= i < |x| && 0 <= j < |x|
              ==> StressTable(root, d, x)(i, j) == StressTable(root, d, x)(j, i)
    ensures forall i :: 0 <= i < |x| ==> StressTable(root, d, x)(i, i) == 0.0
  {
    forall i, j | 0 <= i < |x| && 0 <= j < |x|
      ensures PairStress(root, d, x, i, j) == PairStress(root, d, x, j, i)
      ensures i == j ==> PairStress(root, d, x, i, j) == 0.0
    {
      var e := Minus(At(x, i), At(x, j));
      assert Minus(At(x, j), At(x, i)) == Negated(e);
      NegatedSquare(e.x);
      NegatedSquare(e.y);
      var off := Entry(d, i, j) - Hypot(root, e);
      ZeroTimes(Times(off, off));
    }
  }

  // ── The algorithm ───────────────────────────────────────────────────────────

  method StressMajorise(root: real -> real, points: seq<Point>, distances: seq<seq<real>>)
    returns (current: seq<Point>)
    requires IsRoot(root) && Targets(distances, |points|)
    ensures |current| == |points|
    ensures current == Majorised(root, distances, points)
  {
    if |points| < 2 {
      return points;
    }
    current := points;
    for step := 0 to STRESS_ITERATIONS
      invariant |current| == |points|
      invariant current == Sweeps(root, distances, points, step)
    {
      current := SweepAll(root, current, distances);
    }
  }

  /** One iteration: every point moves from the old places. */
  method SweepAll(root: real -> real, current: seq<Point>, distances: seq<seq<real>>) returns (moved: seq<Point>)
    requires Targets(distances, |current|) && |current| >= 2
    ensures moved == SweepOf(root, distances, current)
  {
    moved := [];
    TotalsPositive(distances, |current|);
    for i := 0 to |current|
      invariant |moved| == i
      invariant forall k :: 0 <= k < i ==> moved[k] == SweptPoint(root, distances, current, k)
    {
      var p := SweepOne(root, current, distances, i);
      moved := moved + [p];
    }
  }

  /** The weighted mean of the pulls on one point. */
  method SweepOne(root: real -> real, current: seq<Point>, distances: seq<seq<real>>, i: nat) returns (p: Point)
    requires i < |current| && TotalWeight(distances, i, |current|) > 0.0
    ensures p == SweptPoint(root, distances, current, i)
  {
    var total, sumX, sumY := Accumulate(WeightTable(distances), Pulls(root, distances, current, Horizontal),
                                        Pulls(root, distances, current, Vertical), i, |current|);
    p := Point(sumX / total, sumY / total);
  }

  /** The inner loop: the total weight and the two weighted sums, over the other points. */
  method Accumulate(weights: Table, pullsX: Table, pullsY: Table, i: nat, size: nat)
    returns (total: real, sumX: real, sumY: real)
    requires weights(i, i) == pullsX(i, i) == pullsY(i, i) == 0.0
    ensures total == RowSum(weights, i, size)
    ensures sumX == RowSum(pullsX, i, size) && sumY == RowSum(pullsY, i, size)
  {
    total, sumX, sumY := 0.0, 0.0, 0.0;
    for j := 0 to size
      invariant total == RowSum(weights, i, j)
      invariant sumX == RowSum(pullsX, i, j) && sumY == RowSum(pullsY, i, j)
    {
      if i == j {
        continue;
      }
      sumX := sumX + pullsX(i, j);
      sumY := sumY + pullsY(i, j);
      total := total + weights(i, j);
    }
  }

  /** Majorising never raises the stress. */
  lemma MajoriseLowersStress(root: real -> real, d: seq<seq<real>>, x: seq<Point>)
    requires IsRoot(root) && Targets(d, |x|)
    ensures Stress(root, d, Majorised(root, d, x)) <= Stress(root, d, x)
  {
    if |x| >= 2 {
      SweepsLowerStress(root, d, x, 0, STRESS_ITERATIONS);
    }
  }
}
