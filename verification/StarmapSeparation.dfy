/** The separation passes of `scripts/layout_starmap.py`: overlapping nebulae are pushed apart,
    pair by pair and in place, until a pass moves nothing. */
module StarmapSeparation {
  import opened Reals
  import opened Iteration

  const NEBULA_CLEARANCE := 1.35
  const SEPARATION_PASSES: nat := 400
  const SEPARATION_SLACK := 0.0005
  const SAME_PLACE := 0.000000001

  function Needed(radii: seq<real>, i: int, j: int): real
    requires 0 <= i < |radii| && 0 <= j < |radii|
  {
    NEBULA_CLEARANCE * (radii[i] + radii[j])
  }

  /** Whether one pair of centres keeps its clearance. */
  ghost predicate Clears(root: real -> real, x: seq<Point>, radii: seq<real>, i: int, j: int)
    requires |x| == |radii| && 0 <= i < |x| && 0 <= j < |x|
  {
    Hypot(root, Minus(x[j], x[i])) >= Needed(radii, i, j)
  }

  /** Whether every pair of centres keeps its clearance. */
  ghost predicate Cleared(root: real -> real, x: seq<Point>, radii: seq<real>)
    requires |x| == |radii|
  {
    forall i, j :: 0 <= i < j < |x| ==> Clears(root, x, radii, i, j)
  }

  /** A turn gives every position a direction of length one: `cos` and `sin` of its angle. */
  ghost predicate IsTurn(turn: nat -> Point) {
    forall k: nat :: Norm2(turn(k)) == 1.0
  }

  /** The direction and distance a pair is pushed by: the pair's own, or a turned direction and
      a distance of one for a pair in the same place. */
  function Aim(root: real -> real, turn: nat -> Point, e: Point, i: nat): (Point, real) {
    var span := Hypot(root, e);
    if span < SAME_PLACE then (turn(i), 1.0) else (e, span)
  }

  /** By how much each of the two centres moves. */
  function Push(root: real -> real, turn: nat -> Point, e: Point, i: nat, needed: real): Point
    requires Aim(root, turn, e, i).1 != 0.0
  {
    var (d, span) := Aim(root, turn, e, i);
    var push := (needed - span) / 2.0 + SEPARATION_SLACK;
    Point(Times(d.x / span, push), Times(d.y / span, push))
  }

  /** A pair in the same place is pushed along the turned direction of its first centre, any other along
      the line between its centres. */
  lemma PushGoesAlong(root: real -> real, turn: nat -> Point, e: Point, i: nat, needed: real)
    requires Aim(root, turn, e, i).1 != 0.0
    ensures var push, span := Push(root, turn, e, i, needed), Hypot(root, e);
            && (span < SAME_PLACE ==>
                  push == Point(Times(turn(i).x, (needed - 1.0) / 2.0 + SEPARATION_SLACK),
                                Times(turn(i).y, (needed - 1.0) / 2.0 + SEPARATION_SLACK)))
            && (span >= SAME_PLACE ==> Times(push.x, e.y) == Times(push.y, e.x))
  {
    var span := Hypot(root, e);
    if span < SAME_PLACE {
      assert turn(i).x / 1.0 == turn(i).x && turn(i).y / 1.0 == turn(i).y;
    } else {
      CrossedFactors(e.x, e.y, span, (needed - span) / 2.0 + SEPARATION_SLACK);
    }
  }

  lemma CrossedFactors(a: real, b: real, span: real, push: real)
    requires span != 0.0
    ensures Times(Times(a / span, push), b) == Times(Times(b / span, push), a)
  {
    var c, d := a / span, b / span;
    DivisionUndone(a, span);
    DivisionUndone(b, span);
    assert a == c * span && b == d * span;
    SameProduct(c, d, span, push);
  }

  lemma SameProduct(c: real, d: real, span: real, push: real)
    ensures Times(Times(c, push), d * span) == Times(Times(d, push), c * span)
  {
  }

  function Plus(a: Point, b: Point): Point {
    Point(a.x + b.x, a.y + b.y)
  }

  function Centroid(x: seq<Point>): Point {
    if |x| == 0 then Point(0.0, 0.0) else Plus(Centroid(x[..|x| - 1]), x[|x| - 1])
  }

  /** Moving one point moves the sum of all by as much. */
  lemma {:induction false} CentroidOfUpdate(x: seq<Point>, i: nat, p: Point)
    requires i < |x|
    ensures Centroid(x[i := p]) == Plus(Centroid(x), Minus(p, x[i]))
  {
    var n := |x| - 1;
    if i < n {
      CentroidOfUpdate(x[..n], i, p);
      assert x[i := p][..n] == x[..n][i := p];
    } else {
      assert x[i := p][..n] == x[..n];
    }
  }

  // ── The passes ──────────────────────────────────────────────────────────────

  /** One pair: left alone when it is clear, else pushed apart. */
  function Settle(root: real -> real, turn: nat -> Point, x: seq<Point>, radii: seq<real>, i: nat,
                  j: nat): (y: seq<Point>)
    requires |x| == |radii| && i < j < |x|
    ensures |y| == |x|
  {
    var e := Minus(x[j], x[i]);
    if Hypot(root, e) >= Needed(radii, i, j) then x
    else
      var push := Push(root, turn, e, i, Needed(radii, i, j));
      x[i := Minus(x[i], push)][j := Plus(x[j], push)]
  }

  /** The pairs of `i` with `j` and those after it, each seeing what the ones before it moved. */
  function SettleRow(root: real -> real, turn: nat -> Point, x: seq<Point>, radii: seq<real>, i: nat,
                     j: nat): (y: seq<Point>)
    requires |x| == |radii| && i < j <= |x|
    ensures |y| == |x|
    decreases |x| - j
  {
    if j == |x| then x else SettleRow(root, turn, Settle(root, turn, x, radii, i, j), radii, i, j + 1)
  }

  function SettleRows(root: real -> real, turn: nat -> Point, x: seq<Point>, radii: seq<real>, i: nat): (y: seq<Point>)
    requires |x| == |radii| && i <= |x|
    ensures |y| == |x|
    decreases |x| - i
  {
    if i == |x| then x else SettleRows(root, turn, SettleRow(root, turn, x, radii, i, i + 1), radii, i + 1)
  }

  /** One pass over the pairs in order. */
  function PassOver(root: real -> real, turn: nat -> Point, x: seq<Point>, radii: seq<real>): (y: seq<Point>)
    requires |x| == |radii|
    ensures |y| == |x|
  {
    SettleRows(root, turn, x, radii, 0)
  }

  /** One pass, over placements of as many centres as there are radii. */
  function PassOf(root: real -> real, turn: nat -> Point, radii: seq<real>): seq<Point> -> seq<Point> {
    (x: seq<Point>) => if |x| == |radii| then PassOver(root, turn, x, radii) else x
  }

  ghost function ClearOf(root: real -> real, radii: seq<real>): seq<Point> -> bool {
    (x: seq<Point>) => |x| == |radii| && Cleared(root, x, radii)
  }

  /** Passes until every pair is clear, at most 400 of them. */
  ghost function Separated(root: real -> real, turn: nat -> Point, x: seq<Point>, radii: seq<real>): seq<Point> {
    Until(ClearOf(root, radii), PassOf(root, turn, radii), x, SEPARATION_PASSES)
  }

  /** Whether one of those passes finds every pair clear. */
  ghost predicate Settles(root: real -> real, turn: nat -> Point, x: seq<Point>, radii: seq<real>) {
    Stops(ClearOf(root, radii), PassOf(root, turn, radii), x, SEPARATION_PASSES)
  }

  /** The separation settles exactly when the placement is clear after fewer than 400 passes; then it
      ends with every pair at its clearance, and otherwise after all its passes. */
  lemma SettlesIff(root: real -> real, turn: nat -> Point, x: seq<Point>, radii: seq<real>)
    ensures Settles(root, turn, x, radii)
            <==> exists k ::
              0 <= k < SEPARATION_PASSES && ClearOf(root, radii)(Iterated(PassOf(root, turn, radii), x, k))
    ensures Settles(root, turn, x, radii) ==> ClearOf(root, radii)(Separated(root, turn, x, radii))
    ensures !Settles(root, turn, x, radii) ==>
              Separated(root, turn, x, radii) == Iterated(PassOf(root, turn, radii), x, SEPARATION_PASSES)
  {
    StopsIff(ClearOf(root, radii), PassOf(root, turn, radii), x, SEPARATION_PASSES);
    UntilEnds(ClearOf(root, radii), PassOf(root, turn, radii), x, SEPARATION_PASSES);
  }

  /** A push is mutual, so the sum of the centres stays. */
  lemma SettleKeepsCentroid(root: real -> real, turn: nat -> Point, x: seq<Point>, radii: seq<real>, i: nat, j: nat)
    requires |x| == |radii| && i < j < |x|
    ensures Centroid(Settle(root, turn, x, radii, i, j)) == Centroid(x)
  {
    var e := Minus(x[j], x[i]);
    if Hypot(root, e) < Needed(radii, i, j) {
      var push := Push(root, turn, e, i, Needed(radii, i, j));
      CentroidOfUpdate(x, i, Minus(x[i], push));
      CentroidOfUpdate(x[i := Minus(x[i], push)], j, Plus(x[j], push));
    }
  }

  /** A pair that was too close is clear right after its push exactly when its centres were apart. */
  lemma SettleClearsIffApart(root: real -> real, turn: nat -> Point, x: seq<Point>, radii: seq<real>, i: nat, j: nat)
    requires IsRoot(root) && IsTurn(turn) && |x| == |radii| && i < j < |x|
    requires !Clears(root, x, radii, i, j) && Needed(radii, i, j) >= 1.0
    ensures Clears(root, Settle(root, turn, x, radii, i, j), radii, i, j)
            <==> Hypot(root, Minus(x[j], x[i])) >= SAME_PLACE
  {
    var e := Minus(x[j], x[i]);
    PushClearsIffApart(root, turn, e, i, Needed(radii, i, j));
    var y := Settle(root, turn, x, radii, i, j);
    assert Minus(y[j], y[i]) == Pushed(root, turn, e, i, Needed(radii, i, j));
  }

  method Separate(root: real -> real, turn: nat -> Point, points: seq<Point>, radii: seq<real>)
    returns (current: seq<Point>, ghost settled: bool)
    requires IsRoot(root) && |points| == |radii|
    ensures |current| == |points|
    ensures current == Separated(root, turn, points, radii)
    ensures settled <==> Settles(root, turn, points, radii)
    // A pass that moved nothing leaves every pair at its clearance.
    ensures settled ==> Cleared(root, current, radii)
    // What already clears is not moved at all.
    ensures Cleared(root, points, radii) ==> current == points && settled
    // Every push is mutual, so the centre of the map stays where it is.
    ensures Centroid(current) == Centroid(points)
  {
    current := points;
    ghost var clear, step := ClearOf(root, radii), PassOf(root, turn, radii);
    for pass := 0 to SEPARATION_PASSES
      invariant |current| == |points| && Centroid(current) == Centroid(points)
      invariant pass == 0 ==> current == points
      invariant pass > 0 ==> !Cleared(root, points, radii)
      invariant Until(clear, step, points, SEPARATION_PASSES) == Until(clear, step, current, SEPARATION_PASSES - pass)
      invariant Stops(clear, step, points, SEPARATION_PASSES) == Stops(clear, step, current, SEPARATION_PASSES - pass)
    {
      ghost var before := current;
      var moved: bool;
      current, moved := Pass(root, turn, current, radii);
      PassIsStep(root, turn, before, radii);
      if !moved {
        settled := true;
        return;
      }
    }
    settled := false;
  }

  lemma PassIsStep(root: real -> real, turn: nat -> Point, x: seq<Point>, radii: seq<real>)
    requires |x| == |radii|
    ensures PassOf(root, turn, radii)(x) == PassOver(root, turn, x, radii)
    ensures ClearOf(root, radii)(x) <==> Cleared(root, x, radii)
  {
  }

  /** One pass over the pairs in order. */
  method Pass(root: real -> real, turn: nat -> Point, points: seq<Point>, radii: seq<real>)
    returns (current: seq<Point>, moved: bool)
    requires IsRoot(root) && |points| == |radii|
    ensures current == PassOver(root, turn, points, radii)
    ensures Centroid(current) == Centroid(points)
    ensures !moved <==> Cleared(root, points, radii)
    ensures !moved ==> current == points
  {
    current, moved := points, false;
    for i := 0 to |points|
      invariant |current| == |points|
      invariant PassOver(root, turn, points, radii) == SettleRows(root, turn, current, radii, i)
      invariant !moved ==> current == points
      invariant !moved ==> forall a, b :: 0 <= a < i && a < b < |points| ==> Clears(root, points, radii, a, b)
      invariant moved ==> !Cleared(root, points, radii)
    {
      var pushed: bool;
      current, pushed := PassRow(root, turn, current, radii, i);
      moved := moved || pushed;
    }
    RowsKeepCentroid(root, turn, points, radii, 0);
  }

  /** The pairs of one centre with those after it. */
  method PassRow(root: real -> real, turn: nat -> Point, points: seq<Point>, radii: seq<real>, i: nat)
    returns (current: seq<Point>, moved: bool)
    requires IsRoot(root) && |points| == |radii| && i < |points|
    ensures current == SettleRow(root, turn, points, radii, i, i + 1)
    ensures moved <==> exists b :: i < b < |points| && !Clears(root, points, radii, i, b)
    ensures !moved ==> current == points
  {
    current, moved := points, false;
    for j := i + 1 to |points|
      invariant |current| == |points|
      invariant SettleRow(root, turn, points, radii, i, i + 1) == SettleRow(root, turn, current, radii, i, j)
      invariant !moved ==> current == points && forall b :: i < b < j ==> Clears(root, points, radii, i, b)
      invariant moved ==> exists b :: i < b < |points| && !Clears(root, points, radii, i, b)
    {
      var needed := Needed(radii, i, j);
      var e := Minus(current[j], current[i]);
      ghost var settle := Settle(root, turn, current, radii, i, j);
      if Hypot(root, e) >= needed {
        continue;
      }
      assert !moved ==> !Clears(root, points, radii, i, j);
      var push := Push(root, turn, e, i, needed);
      current := current[i := Minus(current[i], push)];
      current := current[j := Plus(current[j], push)];
      assert current == settle;
      moved := true;
    }
  }

  lemma {:induction false} RowKeepsCentroid(root: real -> real, turn: nat -> Point, x: seq<Point>, radii: seq<real>,
                                            i: nat, j: nat)
    requires |x| == |radii| && i < j <= |x|
    ensures Centroid(SettleRow(root, turn, x, radii, i, j)) == Centroid(x)
    decreases |x| - j
  {
    if j < |x| {
      SettleKeepsCentroid(root, turn, x, radii, i, j);
      RowKeepsCentroid(root, turn, Settle(root, turn, x, radii, i, j), radii, i, j + 1);
    }
  }

  lemma {:induction false} RowsKeepCentroid(root: real -> real, turn: nat -> Point, x: seq<Point>, radii: seq<real>,
                                            i: nat)
    requires |x| == |radii| && i <= |x|
    ensures Centroid(SettleRows(root, turn, x, radii, i)) == Centroid(x)
    decreases |x| - i
  {
    if i < |x| {
      RowKeepsCentroid(root, turn, x, radii, i, i + 1);
      RowsKeepCentroid(root, turn, SettleRow(root, turn, x, radii, i, i + 1), radii, i + 1);
    }
  }

  // ── One push ────────────────────────────────────────────────────────────────

  /** Where a pushed pair ends up relative to each other. */
  function Pushed(root: real -> real, turn: nat -> Point, e: Point, i: nat, needed: real): Point
    requires Aim(root, turn, e, i).1 != 0.0
  {
    var push := Push(root, turn, e, i, needed);
    Point(e.x + 2.0 * push.x, e.y + 2.0 * push.y)
  }

  lemma ScaledLength(root: real -> real, u: Point, s: real)
    requires IsRoot(root) && Norm2(u) == 1.0 && s >= 0.0
    ensures Hypot(root, Point(Times(u.x, s), Times(u.y, s))) == s
  {
    var v := Point(Times(u.x, s), Times(u.y, s));
    ProductSquared(u.x, s);
    ProductSquared(u.y, s);
    Distribute(Times(u.x, u.x), Times(u.y, u.y), Times(s, s));
    assert Times(1.0, Times(s, s)) == Times(s, s);
    HypotSquared(root, v);
    SquareOrder(Hypot(root, v), s);
    SquareOrder(s, Hypot(root, v));
  }

  lemma Stretch(u: real, h: real, push: real)
    ensures Times(u, h) + 2.0 * Times(u, push) == Times(u, h + 2.0 * push)
  {
  }

  /** A pair in different places ends up exactly the slack beyond its clearance. */
  lemma ApartPushClears(root: real -> real, turn: nat -> Point, e: Point, i: nat, needed: real)
    requires IsRoot(root) && SAME_PLACE <= Hypot(root, e) < needed
    ensures Hypot(root, Pushed(root, turn, e, i, needed)) == needed + 2.0 * SEPARATION_SLACK
  {
    var h := Hypot(root, e);
    var u := Point(e.x / h, e.y / h);
    var push := (needed - h) / 2.0 + SEPARATION_SLACK;
    DivisionUndone(e.x, h);
    DivisionUndone(e.y, h);
    HypotSquared(root, e);
    UnitVector(e, h, u);
    Stretch(u.x, h, push);
    Stretch(u.y, h, push);
    ScaledLength(root, u, h + 2.0 * push);
  }

  /** A pair in the same place is pushed as though it were one unit apart, and stays short. */
  lemma SamePlacePushFallsShort(root: real -> real, turn: nat -> Point, e: Point, i: nat, needed: real)
    requires IsRoot(root) && IsTurn(turn) && Hypot(root, e) < SAME_PLACE && needed >= 1.0
    ensures Hypot(root, Pushed(root, turn, e, i, needed)) < needed
  {
    var push := (needed - 1.0) / 2.0 + SEPARATION_SLACK;
    var t := turn(i);
    var shift := Point(Times(t.x, 2.0 * push), Times(t.y, 2.0 * push));
    ScaledLength(root, t, 2.0 * push);
    TriangleInequality(root, e, shift);
    DoubledPush(t.x, push);
    DoubledPush(t.y, push);
    assert Pushed(root, turn, e, i, needed) == Point(e.x + shift.x, e.y + shift.y);
  }

  lemma DoubledPush(t: real, push: real)
    ensures 2.0 * Times(t / 1.0, push) == Times(t, 2.0 * push)
  {
  }

  /** So one push clears an overlapping pair if and only if its centres were apart. */
  lemma PushClearsIffApart(root: real -> real, turn: nat -> Point, e: Point, i: nat, needed: real)
    requires IsRoot(root) && IsTurn(turn) && Hypot(root, e) < needed && needed >= 1.0
    ensures Hypot(root, Pushed(root, turn, e, i, needed)) >= needed <==> Hypot(root, e) >= SAME_PLACE
  {
    if Hypot(root, e) >= SAME_PLACE {
      ApartPushClears(root, turn, e, i, needed);
    } else {
      SamePlacePushFallsShort(root, turn, e, i, needed);
    }
  }
}
