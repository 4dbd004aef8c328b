/** What a map of `scripts/layout_starmap.py` looks like: how far out its stars lie, how the frame
    fills the square, what rounding does, and that scaling keeps the shape. */
module StarmapShape {
  import opened Options
  import opened Reals
  import opened Sorting
  import opened StarmapFrame
  import opened StarmapBuild
  import StarmapSeparation

  // ── Spirals and orbits ──────────────────────────────────────────────────────

  /** The point at a distance along a direction. */
  function Along(direction: Point, distance: real): Point {
    Point(Times(distance, direction.x), Times(distance, direction.y))
  }

  lemma AlongSquared(direction: Point, distance: real)
    requires Norm2(direction) == 1.0
    ensures Norm2(Along(direction, distance)) == Times(distance, distance)
  {
    ProductSquared(distance, direction.x);
    ProductSquared(distance, direction.y);
    Distribute(Times(direction.x, direction.x), Times(direction.y, direction.y), Times(distance, distance));
    Commute(Times(distance, distance), Times(direction.x, direction.x));
    Commute(Times(distance, distance), Times(direction.y, direction.y));
    assert Times(1.0, Times(distance, distance)) == Times(distance, distance);
  }

  /** Non-negative reals with the same square are the same. */
  lemma SameSquare(a: real, b: real)
    requires a >= 0.0 && b >= 0.0 && Times(a, a) == Times(b, b)
    ensures a == b
  {
    SquareOrder(a, b);
    SquareOrder(b, a);
  }

  /** The root of a count times the root of a share of it is the root of the share's size. */
  lemma RootOfShare(root: real -> real, k: nat, count: nat)
    requires IsRoot(root) && k < count
    ensures Times(root(count as real), root(k as real / count as real)) == root(k as real)
    ensures root(k as real) >= 0.0 && Times(root(k as real), root(k as real)) == k as real
  {
    var n, f := count as real, k as real / count as real;
    Fraction(k as real, n);
    assert IsRootAt(root, n) && IsRootAt(root, f) && IsRootAt(root, k as real);
    ProductNonNegative(root(n), root(f));
    ProductSquared(root(n), root(f));
    DivisionUndone(k as real, n);
    Commute(n, f);
    SameSquare(Times(root(n), root(f)), root(k as real));
  }

  lemma Reassociate(a: real, b: real, c: real)
    ensures Times(a * b, c) == b * Times(a, c)
  {
    assert Times(a * b, c) == (a * b) * c == b * (a * c);
  }

  /** Star `k` lies along its direction at 0.78 times the root of `k` from its centre, however many
      stars there are. */
  lemma StarLiesOnSpiral(root: real -> real, spin: Spin, topic: Topic, k: nat)
    requires IsRoot(root) && k < |topic.units|
    ensures StarOffset(root, spin, topic, k) == Along(spin(topic.id, k), STAR_FILL * root(k as real))
  {
    var count := |topic.units|;
    RootOfShare(root, k, count);
    Reassociate(root(count as real), STAR_FILL, root(k as real / count as real));
  }

  /** So its squared distance is that of its place in the topic, and stars in order lie farther out. */
  lemma SpiralDistance(root: real -> real, spin: Spin, topic: Topic, k: nat)
    requires IsRoot(root) && IsSpin(spin) && k < |topic.units|
    ensures Norm2(StarOffset(root, spin, topic, k)) == STAR_FILL * STAR_FILL * k as real
  {
    var r := root(k as real);
    StarLiesOnSpiral(root, spin, topic, k);
    RootOfShare(root, k, |topic.units|);
    AlongSquared(spin(topic.id, k), STAR_FILL * r);
    ScaledSquare(STAR_FILL, r);
  }

  lemma ScaledSquare(a: real, r: real)
    ensures Times(a * r, a * r) == a * a * Times(r, r)
  {
    assert a * r == Times(a, r) && a * a == Times(a, a);
    ProductSquared(a, r);
    assert Times(Times(a, a), Times(r, r)) == a * a * Times(r, r);
  }

  lemma SpiralGrows(root: real -> real, spin: Spin, topic: Topic, j: nat, k: nat)
    requires IsRoot(root) && IsSpin(spin) && j < k < |topic.units|
    ensures Norm2(StarOffset(root, spin, topic, j)) < Norm2(StarOffset(root, spin, topic, k))
  {
    SpiralDistance(root, spin, topic, j);
    SpiralDistance(root, spin, topic, k);
  }

  /** Units appended to a topic leave the raw places of its earlier stars alone. */
  lemma AppendedUnitsMoveNothing(root: real -> real, spin: Spin, centre: Point, topic: Topic, more: seq<string>, k: nat)
    requires IsRoot(root) && k < |topic.units|
    ensures StarAt(root, spin, centre, topic.(units := topic.units + more), k) == StarAt(root, spin, centre, topic, k)
  {
    StarLiesOnSpiral(root, spin, topic, k);
    StarLiesOnSpiral(root, spin, topic.(units := topic.units + more), k);
  }

  /** A skill point lies on a circle around its star. */
  lemma OrbitDistance(spin: Spin, unit: string, k: nat)
    requires IsSpin(spin)
    ensures Norm2(SkillOffset(spin, unit, k)) == SKILL_ORBIT * SKILL_ORBIT
  {
    assert SkillOffset(spin, unit, k) == Along(spin(unit, k), SKILL_ORBIT);
    AlongSquared(spin(unit, k), SKILL_ORBIT);
  }

  // ── Rounding and scaling ────────────────────────────────────────────────────

  /** Rounding gives the nearest multiple of a millionth, the even one of two equally near. */
  lemma RoundedIff(v: real, n: int)
    ensures Rounded(v) == n as real / COORD_STEPS
            <==> -0.5 < v * COORD_STEPS - n as real < 0.5
                 || ((v * COORD_STEPS - n as real == 0.5 || v * COORD_STEPS - n as real == -0.5) && n % 2 == 0)
  {
    var scaled := v * COORD_STEPS;
    var below := scaled.Floor;
    var rest := scaled - below as real;
    var digits := if rest < 0.5 || (rest == 0.5 && below % 2 == 0) then below else below + 1;
    SameSteps(digits, n);
  }

  lemma SameSteps(a: int, b: int)
    ensures a as real / COORD_STEPS == b as real / COORD_STEPS <==> a == b
  {
  }

  /** The map keeps the shape of the raw layout: places differ as the raw ones do, scaled, up to the
      rounding of both. */
  lemma ApplyKeepsShape(t: Transform, a: Point, b: Point)
    ensures var dx := Apply(t, a).x - Apply(t, b).x - Times(a.x - b.x, t.scale);
            -2.0 * HALF_STEP <= dx <= 2.0 * HALF_STEP
    ensures var dy := Apply(t, a).y - Apply(t, b).y - Times(a.y - b.y, t.scale);
            -2.0 * HALF_STEP <= dy <= 2.0 * HALF_STEP
  {
    Distribute(a.x, b.x, t.scale);
    Distribute(a.y, b.y, t.scale);
    RoundingError(Times(a.x, t.scale) + t.offset.x);
    RoundingError(Times(b.x, t.scale) + t.offset.x);
    RoundingError(Times(a.y, t.scale) + t.offset.y);
    RoundingError(Times(b.y, t.scale) + t.offset.y);
  }

  /** A nebula's radius on the map is the root of its number of stars, scaled, up to rounding. */
  lemma NebulaKeepsSize(root: real -> real, t: Transform, centres: Centres, topic: Topic)
    requires topic.id in centres
    ensures var d := NebulaOf(root, t, centres, topic).radius - Times(root(|topic.units| as real), t.scale);
            -HALF_STEP <= d <= HALF_STEP
  {
    RoundingError(Times(Radius(root, topic), t.scale));
  }

  // ── The frame ───────────────────────────────────────────────────────────────

  /** Where the frame puts a coordinate, before rounding. */
  function Mapped(t: Transform, v: real, axis: Axis): real {
    Times(v, t.scale) + Coordinate(t.offset, axis)
  }

  /** One axis of the frame: the widened extent is mapped around the middle of the square, and fills
      it up to the padding when it is as wide as the square allows. */
  lemma AxisIsCentred(low: real, width: real, scale: real, offset: real)
    requires offset == FRAME_PAD + (USABLE - Times(width, scale)) / 2.0 - Times(low, scale)
    ensures Times(low, scale) + offset + (Times(low + width, scale) + offset) == 1.0
    ensures Times(width, scale) == USABLE ==>
              Times(low, scale) + offset == FRAME_PAD && Times(low + width, scale) + offset == 1.0 - FRAME_PAD
  {
    Distribute(low, width, scale);
  }

  /** The map lies in the middle of the square, and its longer side, with its headroom, fills the
      square up to the padding. */
  lemma FrameFills(x: Extent, y: Extent)
    ensures var t, headroom := FrameOf(x, y), FRAME_HEADROOM * Larger(x.Side(), y.Side());
            && t.scale > 0.0
            && Mapped(t, x.low - headroom, Horizontal) + Mapped(t, x.low + x.Side() + headroom, Horizontal) == 1.0
            && Mapped(t, y.low - headroom, Vertical) + Mapped(t, y.low + y.Side() + headroom, Vertical) == 1.0
            && (x.Side() >= y.Side() ==>
                  Mapped(t, x.low - headroom, Horizontal) == FRAME_PAD
                  && Mapped(t, x.low + x.Side() + headroom, Horizontal) == 1.0 - FRAME_PAD)
            && (y.Side() >= x.Side() ==>
                  Mapped(t, y.low - headroom, Vertical) == FRAME_PAD
                  && Mapped(t, y.low + y.Side() + headroom, Vertical) == 1.0 - FRAME_PAD)
  {
    var t, headroom := FrameOf(x, y), FRAME_HEADROOM * Larger(x.Side(), y.Side());
    var width, height := x.Side() + 2.0 * headroom, y.Side() + 2.0 * headroom;
    QuotientPositive(USABLE, Larger(width, height));
    AxisIsCentred(x.low - headroom, width, t.scale, t.offset.x);
    AxisIsCentred(y.low - headroom, height, t.scale, t.offset.y);
    assert x.low - headroom + width == x.low + x.Side() + headroom;
    assert y.low - headroom + height == y.low + y.Side() + headroom;
  }

  // ── Growing a topic ─────────────────────────────────────────────────────────

  /** Units appended to a topic leave the stars it had where they are on the map, as long as the
      frame and the centres are carried over. */
  lemma AppendedUnitsKeepStars(root: real -> real, spin: Spin, t: Transform, centres: Centres, topics: seq<Topic>,
                               i: nat, more: seq<string>)
    requires IsRoot(root) && Placed(topics, centres) && DistinctIds(topics) && i < |topics|
    ensures var grown := topics[i := topics[i].(units := topics[i].units + more)];
            StarsIn(Stars(root, spin, t, centres, topics), topics[i].id)
            <= StarsIn(Stars(root, spin, t, centres, grown), topics[i].id)
  {
    var topic := topics[i];
    var larger := topic.(units := topic.units + more);
    StarsOfOneTopic(root, spin, t, centres, topics, i);
    StarsOfOneTopic(root, spin, t, centres, topics[i := larger], i);
    forall k | 0 <= k < |topic.units|
      ensures StarsOf(root, spin, t, centres, larger)[k] == StarsOf(root, spin, t, centres, topic)[k]
    {
      AppendedUnitsMoveNothing(root, spin, centres[topic.id], topic, more, k);
    }
  }

  // ── Everything is drawn ─────────────────────────────────────────────────────

  /** Every topic has its nebula on the map, and every unit its star on the spiral. */
  lemma TopicIsDrawn(root: real -> real, spin: Spin, t: Transform, centres: Centres, topics: seq<Topic>, i: nat, k: nat)
    requires IsRoot(root) && Placed(topics, centres) && i < |topics| && k < |topics[i].units|
    ensures var topic := topics[i];
            var place := StarmapSeparation.Plus(centres[topic.id],
                                                Along(spin(topic.id, k), STAR_FILL * root(k as real)));
            && Nebulae(root, t, centres, topics)[i]
               == Nebula(topic.id, Apply(t, centres[topic.id]), LengthIn(t, root(|topic.units| as real)))
            && Star(topic.units[k], topic.id, Apply(t, place)) in Stars(root, spin, t, centres, topics)
  {
    StarLiesOnSpiral(root, spin, topics[i], k);
    StarIsDrawn(root, spin, t, centres, topics, i, k);
  }

  lemma {:induction false} StarIsDrawn(root: real -> real, spin: Spin, t: Transform, centres: Centres,
                                       topics: seq<Topic>, i: nat, k: nat)
    requires Placed(topics, centres) && i < |topics| && k < |topics[i].units|
    ensures StarOf(root, spin, t, centres, topics[i], k) in Stars(root, spin, t, centres, topics)
  {
    var n := |topics| - 1;
    if i < n {
      StarIsDrawn(root, spin, t, centres, topics[..n], i, k);
    } else {
      assert StarsOf(root, spin, t, centres, topics[n])[k] == StarOf(root, spin, t, centres, topics[n], k);
    }
  }

  function UnitCount(topics: seq<Topic>): nat {
    if |topics| == 0 then 0 else UnitCount(topics[..|topics| - 1]) + |topics[|topics| - 1].units|
  }

  /** And there are no other stars than one for each unit. */
  lemma {:induction false} StarsAreUnits(root: real -> real, spin: Spin, t: Transform, centres: Centres,
                                         topics: seq<Topic>)
    requires Placed(topics, centres)
    ensures |Stars(root, spin, t, centres, topics)| == UnitCount(topics)
  {
    if |topics| > 0 {
      StarsAreUnits(root, spin, t, centres, topics[..|topics| - 1]);
    }
  }

  /** How many skills of the same unit come before one. */
  function Earlier(skills: seq<Skill>, n: nat, unit: string): nat
    requires n <= |skills|
  {
    if n == 0 then 0 else Earlier(skills, n - 1, unit) + if skills[n - 1].unit == unit then 1 else 0
  }

  lemma {:induction false} OwnedAt(skills: seq<Skill>, n: nat, m: nat)
    requires n < m <= |skills|
    ensures var unit := skills[n].unit;
            && |Owned(skills[..m], unit)| == Earlier(skills, m, unit) > Earlier(skills, n, unit)
            && Owned(skills[..m], unit)[Earlier(skills, n, unit)] == skills[n]
  {
    var unit := skills[n].unit;
    assert skills[..m][..m - 1] == skills[..m - 1];
    if n < m - 1 {
      OwnedAt(skills, n, m - 1);
    } else {
      OwnedCount(skills, n, unit);
    }
  }

  lemma {:induction false} OwnedCount(skills: seq<Skill>, n: nat, unit: string)
    requires n <= |skills|
    ensures |Owned(skills[..n], unit)| == Earlier(skills, n, unit)
  {
    if n > 0 {
      OwnedCount(skills, n - 1, unit);
      assert skills[..n][..n - 1] == skills[..n - 1];
    }
  }

  /** Every skill of a unit on the map has its point on the circle around the unit's star, at the
      position it has among the unit's skills. */
  lemma {:induction false} SkillIsDrawn(root: real -> real, spin: Spin, t: Transform, centres: Centres,
                                        topics: seq<Topic>,
                     skills: seq<Skill>, n: nat, i: nat, k: nat)
    requires Placed(topics, centres) && DistinctUnits(topics) && i < |topics| && k < |topics[i].units|
    requires n < |skills| && skills[n].unit == topics[i].units[k]
    ensures var unit, star := topics[i].units[k], StarAt(root, spin, centres[topics[i].id], topics[i], k);
            var place := StarmapSeparation.Plus(star, Along(spin(unit, Earlier(skills, n, unit)), SKILL_ORBIT));
            SkillPoint(skills[n], Apply(t, place)) in SkillPoints(root, spin, t, centres, topics, skills)
  {
    var unit, star := topics[i].units[k], StarAt(root, spin, centres[topics[i].id], topics[i], k);
    var j := Earlier(skills, n, unit);
    OwnedAt(skills, n, |skills|);
    assert skills[..|skills|] == skills;
    assert SkillOffset(spin, unit, j) == Along(spin(unit, j), SKILL_ORBIT);
    var p := SkillPoint(skills[n], Apply(t, StarmapSeparation.Plus(star, SkillOffset(spin, unit, j))));
    assert Orbit(spin, t, star, Owned(skills, unit), unit)[j] == p;
    SkillPointsOfOneUnit(root, spin, t, centres, topics, skills, i, k, p);
  }

  /** Every skill point is that of a skill whose unit is on the map. */
  lemma DrawnIsSkill(root: real -> real, spin: Spin, t: Transform, centres: Centres, topics: seq<Topic>,
                     skills: seq<Skill>, p: SkillPoint)
    requires Placed(topics, centres) && p in SkillPoints(root, spin, t, centres, topics, skills)
    ensures p.skill in skills && exists i :: 0 <= i < |topics| && p.skill.unit in topics[i].units
  {
    var owners := Sorted(Owners(skills), AtOrBefore);
    SortMembers(Grouped(root, spin, t, centres, topics, skills, owners), BySkill);
    var unit, k := GroupedComesFrom(root, spin, t, centres, topics, skills, owners, p);
    assert Owned(skills, unit)[k].unit == unit;
    AnchoredUnit(root, spin, centres, topics, unit);
  }

  lemma {:induction false} AnchoredUnit(root: real -> real, spin: Spin, centres: Centres, topics: seq<Topic>,
                                        unit: string)
    requires Placed(topics, centres) && Anchor(root, spin, centres, topics, unit).Some?
    ensures exists i :: 0 <= i < |topics| && unit in topics[i].units
  {
    var n := |topics| - 1;
    if unit !in topics[n].units {
      AnchoredUnit(root, spin, centres, topics[..n], unit);
      var i :| 0 <= i < n && unit in topics[..n][i].units;
      assert unit in topics[i].units;
    }
  }

  /** The skill points come by the id of their skill. */
  lemma SkillPointsByName(root: real -> real, spin: Spin, t: Transform, centres: Centres, topics: seq<Topic>,
                          skills: seq<Skill>)
    requires Placed(topics, centres)
    ensures var points := SkillPoints(root, spin, t, centres, topics, skills);
            forall i, j :: 0 <= i < j < |points| ==>
              points[i].skill.id == points[j].skill.id || Precedes(points[i].skill.id, points[j].skill.id)
  {
    var grouped := Grouped(root, spin, t, centres, topics, skills, Sorted(Owners(skills), AtOrBefore));
    BySkillOrders();
    SortOrders(grouped, BySkill);
    var points := Sorted(grouped, BySkill);
    forall i, j | 0 <= i < j < |points|
      ensures points[i].skill.id == points[j].skill.id || Precedes(points[i].skill.id, points[j].skill.id)
    {
      AtOrBeforeIff(points[i].skill.id, points[j].skill.id);
    }
  }

  lemma BySkillOrders()
    ensures TotalPreorder(BySkill)
  {
    StringsOrdered();
    forall a, b ensures BySkill(a, b) || BySkill(b, a) {
      StringsTotal(a.skill.id, b.skill.id);
    }
    forall a, b, c | BySkill(a, b) && BySkill(b, c) ensures BySkill(a, c) {
      StringsTransitive(a.skill.id, b.skill.id, c.skill.id);
    }
  }

  // ── Links between topics ────────────────────────────────────────────────────

  /** The last topic that lists a unit. */
  ghost predicate LastHolds(topics: seq<Topic>, unit: string, id: string) {
    exists k :: 0 <= k < |topics| && unit in topics[k].units && topics[k].id == id
                && forall j :: k < j < |topics| ==> unit !in topics[j].units
  }

  lemma {:induction false} TopicOfIff(topics: seq<Topic>, unit: string, id: string)
    ensures TopicOf(topics, unit) == Some(id) <==> LastHolds(topics, unit, id)
  {
    if |topics| > 0 {
      var n := |topics| - 1;
      TopicOfIff(topics[..n], unit, id);
      assert forall k :: 0 <= k < n ==> topics[..n][k] == topics[k];
      if unit !in topics[n].units && LastHolds(topics[..n], unit, id) {
        var k :| 0 <= k < n && unit in topics[..n][k].units && topics[..n][k].id == id
          && forall j :: k < j < n ==> unit !in topics[..n][j].units;
        assert unit in topics[k].units && forall j :: k < j < |topics| ==> unit !in topics[j].units;
      }
    }
  }

  /** A prerequisite links two topics exactly when its units lie in two different ones, and the pair
      names the lesser of the two first. */
  lemma CrossedIff(topics: seq<Topic>, unit: string, before: string, pair: Pair)
    ensures Crossed(topics, unit, before) == Some(pair)
            <==> (LastHolds(topics, unit, pair.0) && LastHolds(topics, before, pair.1) && Precedes(pair.0, pair.1))
                 || (LastHolds(topics, unit, pair.1) && LastHolds(topics, before, pair.0) && Precedes(pair.0, pair.1))
  {
    TopicOfIff(topics, unit, pair.0);
    TopicOfIff(topics, unit, pair.1);
    TopicOfIff(topics, before, pair.0);
    TopicOfIff(topics, before, pair.1);
    AtOrBeforeIff(pair.0, pair.1);
    AtOrBeforeIff(pair.1, pair.0);
    StringsTotal(pair.0, pair.1);
    assert pair.0 == pair.1 ==> !Precedes(pair.0, pair.1);
  }

  // ── The rows after a run ────────────────────────────────────────────────────

  /** After a run that was applied, every stored row of the map holds the values of the map, and
      nothing else has changed: neither other rows, nor other attributes, nor the authored content. */
  lemma RowsAfterRun(layout: Layout, rows: Rows, k: Key)
    requires k in rows
    ensures var stored, wanted := Written(rows, PlanWrites(layout, rows)), DesiredAttributes(layout);
            && stored.Keys == rows.Keys && stored[k].content == rows[k].content
            && (k !in wanted ==> stored[k] == rows[k])
            && (k in wanted ==> forall a :: a in wanted[k] ==>
                  a in stored[k].attributes && stored[k].attributes[a] == wanted[k][a])
            && (k in wanted ==> forall a :: a !in wanted[k] ==>
                  (a in stored[k].attributes <==> a in rows[k].attributes)
                  && (a in rows[k].attributes ==> stored[k].attributes[a] == rows[k].attributes[a]))
  {
    assert Holds(Written(rows, PlanWrites(layout, rows))[k].attributes, map[]);
  }

  /** A row is planned exactly when it is stored, belongs to the map, and lacks one of its values. */
  lemma PlannedIff(layout: Layout, rows: Rows, k: Key)
    ensures k in PlanWrites(layout, rows)
            <==> && k in rows && k in DesiredAttributes(layout)
                 && exists a :: a in DesiredAttributes(layout)[k]
                                && !(a in rows[k].attributes
                                     && rows[k].attributes[a] == DesiredAttributes(layout)[k][a])
  {
  }

  // ── Versions ────────────────────────────────────────────────────────────────

  /** A layout has a version of its own exactly when it was recomputed: the next one, or the first. */
  lemma RecomputingRaisesVersion(root: real -> real, spin: Spin, turn: nat -> Point, ring: seq<Point>, subject: Subject,
                                 previous: Option<Previous>, relayout: bool, layout: Layout)
    requires Built(root, spin, turn, ring, subject, previous, relayout, layout)
    ensures previous.None? ==> layout.recomputed && layout.version == 1
    ensures previous.Some? && layout.recomputed ==> layout.version == previous.value.version + 1
    ensures previous.Some? && !layout.recomputed ==>
              layout.version == previous.value.version && layout.transform == previous.value.transform
              && layout.centres == previous.value.centres
  {
  }
}
