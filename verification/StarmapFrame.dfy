/** From raw centres to the finished map of `scripts/layout_starmap.py`: the frame that puts
    everything in the unit square, the spirals, the rounding, and the final validation. */
module StarmapFrame {
  import opened Options
  import opened Lists
  import opened Reals
  import opened Lookup
  import opened Sorting
  import StarmapSeparation

  const COORD_STEPS := 1000000.0
  const HALF_STEP := 0.0000005
  const COORD_TOLERANCE := 0.000005
  const STAR_FILL := 0.78
  const SKILL_ORBIT := 0.22
  const FRAME_PAD := 0.04
  const FRAME_HEADROOM := 0.12
  const LEAST_SIDE := 0.000000001
  const USABLE := 0.92

  datatype Topic = Topic(id: string, units: seq<string>)

  datatype Skill = Skill(id: string, unit: string, sortKey: string)

  datatype Transform = Transform(offset: Point, scale: real)

  datatype Nebula = Nebula(topic: string, place: Point, radius: real)

  datatype Star = Star(unit: string, nebula: string, place: Point)

  datatype SkillPoint = SkillPoint(skill: Skill, place: Point)

  /** What validation may find. */
  datatype Problem =
    | NebulaOutside(topic: string)
    | StarOutside(unit: string)
    | SkillOutside(skill: string)
    | TooClose(one: string, other: string)

  type Centres = map<string, Point>

  /** A direction of length one for every token and position. */
  type Spin = (string, nat) -> Point

  ghost predicate IsSpin(spin: Spin) {
    forall token: string, k: nat :: Norm2(spin(token, k)) == 1.0
  }

  // ── Rounding ────────────────────────────────────────────────────────────────

  /** Rounding to six digits, ties to the even digit. */
  function Rounded(v: real): real {
    var scaled := v * COORD_STEPS;
    var below := scaled.Floor;
    var rest := scaled - below as real;
    var digits := if rest < 0.5 || (rest == 0.5 && below % 2 == 0) then below else below + 1;
    digits as real / COORD_STEPS
  }

  lemma RoundingError(v: real)
    ensures -HALF_STEP <= Rounded(v) - v <= HALF_STEP
  {
  }

  function Apply(t: Transform, p: Point): Point {
    Point(Rounded(Times(p.x, t.scale) + t.offset.x), Rounded(Times(p.y, t.scale) + t.offset.y))
  }

  function LengthIn(t: Transform, value: real): real {
    Rounded(Times(value, t.scale))
  }

  // ── The frame ───────────────────────────────────────────────────────────────

  function Radius(root: real -> real, topic: Topic): real {
    root(|topic.units| as real)
  }

  function Least(s: seq<real>): (m: real)
    requires |s| > 0
    ensures m in s && forall k :: 0 <= k < |s| ==> m <= s[k]
  {
    if |s| == 1 then s[0] else var rest := Least(s[1..]); if s[0] <= rest then s[0] else rest
  }

  function Greatest(s: seq<real>): (m: real)
    requires |s| > 0
    ensures m in s && forall k :: 0 <= k < |s| ==> s[k] <= m
  {
    if |s| == 1 then s[0] else var rest := Greatest(s[1..]); if s[0] >= rest then s[0] else rest
  }

  function Larger(a: real, b: real): real {
    if a < b then b else a
  }

  ghost predicate Placed(topics: seq<Topic>, centres: Centres) {
    forall k :: 0 <= k < |topics| ==> topics[k].id in centres
  }

  /** The lowest and highest edge of the nebulae along one axis, and the extent between them. */
  datatype Extent = Extent(low: real, high: real) {
    function Side(): real {
      Larger(high - low, LEAST_SIDE)
    }
  }

  /** The near edge of a nebula along one axis when `side` is -1, the far edge when it is 1. */
  function Edges(root: real -> real, topics: seq<Topic>, centres: Centres, axis: Axis, side: real): (edges: seq<real>)
    requires Placed(topics, centres)
    ensures |edges| == |topics|
  {
    seq(|topics|, k requires 0 <= k < |topics| =>
      Coordinate(centres[topics[k].id], axis) + side * Radius(root, topics[k]))
  }

  function ExtentOf(root: real -> real, topics: seq<Topic>, centres: Centres, axis: Axis): Extent
    requires |topics| > 0 && Placed(topics, centres)
  {
    Extent(Least(Edges(root, topics, centres, axis, -1.0)), Greatest(Edges(root, topics, centres, axis, 1.0)))
  }

  function FrameOf(x: Extent, y: Extent): Transform {
    var headroom := FRAME_HEADROOM * Larger(x.Side(), y.Side());
    var width, height := x.Side() + 2.0 * headroom, y.Side() + 2.0 * headroom;
    var scale := USABLE / Larger(width, height);
    Transform(Point(FRAME_PAD + (USABLE - Times(width, scale)) / 2.0 - Times(x.low - headroom, scale),
                    FRAME_PAD + (USABLE - Times(height, scale)) / 2.0 - Times(y.low - headroom, scale)),
              scale)
  }

  /** The scale and shift that put the raw layout in the unit square. */
  function Frame(root: real -> real, topics: seq<Topic>, centres: Centres): Transform
    requires |topics| > 0 && Placed(topics, centres)
  {
    FrameOf(ExtentOf(root, topics, centres, Horizontal), ExtentOf(root, topics, centres, Vertical))
  }

  lemma QuotientPositive(a: real, b: real)
    requires a > 0.0 && b > 0.0
    ensures a / b > 0.0 && Times(b, a / b) == a
  {
  }

  lemma ScaleFits(x: Extent, y: Extent, side: real)
    requires side <= Larger(x.Side(), y.Side()) + 2.0 * (FRAME_HEADROOM * Larger(x.Side(), y.Side()))
    ensures FrameOf(x, y).scale > 0.0 && Times(side, FrameOf(x, y).scale) <= USABLE
  {
    var headroom := FRAME_HEADROOM * Larger(x.Side(), y.Side());
    var longest := Larger(x.Side() + 2.0 * headroom, y.Side() + 2.0 * headroom);
    QuotientPositive(USABLE, longest);
    ProductMonotone(side, longest, USABLE / longest);
  }

  /** One coordinate of the frame: what lies between the edges is mapped inside the padding. */
  lemma AxisInside(low: real, side: real, headroom: real, scale: real, v: real)
    requires scale > 0.0 && headroom >= 0.0 && low <= v <= low + side
    requires Times(side + 2.0 * headroom, scale) <= USABLE
    ensures var width := side + 2.0 * headroom;
            var mapped := Times(v, scale)
                          + (FRAME_PAD + (USABLE - Times(width, scale)) / 2.0 - Times(low - headroom, scale));
            FRAME_PAD <= mapped <= 1.0 - FRAME_PAD
  {
    var width := side + 2.0 * headroom;
    var from := v - (low - headroom);
    Distribute(v, low - headroom, scale);
    ProductNonNegative(from, scale);
    ProductMonotone(from, width, scale);
  }

  /** A point within the edges of both axes stays inside the unit square, rounding included. */
  lemma InsideFrame(x: Extent, y: Extent, p: Point)
    requires x.low <= p.x <= x.high && y.low <= p.y <= y.high
    ensures InSquare(Apply(FrameOf(x, y), p))
  {
    var headroom := FRAME_HEADROOM * Larger(x.Side(), y.Side());
    var t := FrameOf(x, y);
    ScaleFits(x, y, x.Side() + 2.0 * headroom);
    ScaleFits(x, y, y.Side() + 2.0 * headroom);
    AxisInside(x.low, x.Side(), headroom, t.scale, p.x);
    AxisInside(y.low, y.Side(), headroom, t.scale, p.y);
    RoundingError(Times(p.x, t.scale) + t.offset.x);
    RoundingError(Times(p.y, t.scale) + t.offset.y);
  }

  predicate InSquare(p: Point) {
    0.0 <= p.x <= 1.0 && 0.0 <= p.y <= 1.0
  }

  // ── The points of one topic ─────────────────────────────────────────────────

  /** The offset of the `k`-th star: a golden-angle spiral, innermost star first. */
  function StarOffset(root: real -> real, spin: Spin, topic: Topic, k: nat): Point
    requires k < |topic.units|
  {
    var span := Radius(root, topic) * STAR_FILL;
    var out := Times(span, root(k as real / |topic.units| as real));
    Point(Times(out, spin(topic.id, k).x), Times(out, spin(topic.id, k).y))
  }

  function SkillOffset(spin: Spin, unit: string, k: nat): Point {
    Point(Times(SKILL_ORBIT, spin(unit, k).x), Times(SKILL_ORBIT, spin(unit, k).y))
  }

  function StarAt(root: real -> real, spin: Spin, centre: Point, topic: Topic, k: nat): Point
    requires k < |topic.units|
  {
    StarmapSeparation.Plus(centre, StarOffset(root, spin, topic, k))
  }

  ghost predicate Within(p: Point, centre: Point, reach: real) {
    -reach <= p.x - centre.x <= reach && -reach <= p.y - centre.y <= reach
  }

  lemma RadiusAtLeastOne(root: real -> real, topic: Topic)
    requires IsRoot(root) && |topic.units| > 0
    ensures Radius(root, topic) >= 1.0
  {
    assert IsRootAt(root, |topic.units| as real);
    assert Times(1.0, 1.0) == 1.0;
    SquareOrder(1.0, Radius(root, topic));
  }

  lemma FractionRoot(root: real -> real, k: nat, count: nat)
    requires IsRoot(root) && k < count
    ensures 0.0 <= root(k as real / count as real) <= 1.0
  {
    var f := k as real / count as real;
    Fraction(k as real, count as real);
    assert IsRootAt(root, f);
    assert Times(1.0, 1.0) == 1.0;
    SquareOrder(root(f), 1.0);
  }

  lemma Fraction(a: real, b: real)
    requires 0.0 <= a < b
    ensures 0.0 <= a / b <= 1.0
  {
  }

  lemma UnitCoordinates(u: Point)
    requires Norm2(u) == 1.0
    ensures -1.0 <= u.x <= 1.0 && -1.0 <= u.y <= 1.0
  {
    SquarePositive(u.x);
    SquarePositive(u.y);
    NegatedSquare(u.x);
    NegatedSquare(u.y);
    assert Times(1.0, 1.0) == 1.0;
    SquareOrder(u.x, 1.0);
    SquareOrder(-u.x, 1.0);
    SquareOrder(u.y, 1.0);
    SquareOrder(-u.y, 1.0);
  }

  lemma ScaledCoordinate(a: real, reach: real, u: real)
    requires 0.0 <= a <= reach && -1.0 <= u <= 1.0
    ensures -reach <= Times(a, u) <= reach
  {
    ProductMonotone(u, 1.0, a);
    ProductMonotone(-1.0, u, a);
    Commute(u, a);
    assert Times(1.0, a) == a && Times(-1.0, a) == -a;
  }

  /** A star lies well inside its nebula. */
  lemma StarReach(root: real -> real, spin: Spin, centre: Point, topic: Topic, k: nat)
    requires IsRoot(root) && IsSpin(spin) && k < |topic.units|
    ensures Within(StarAt(root, spin, centre, topic, k), centre, Radius(root, topic) * STAR_FILL)
  {
    var span, f := Radius(root, topic) * STAR_FILL, root(k as real / |topic.units| as real);
    RadiusAtLeastOne(root, topic);
    FractionRoot(root, k, |topic.units|);
    ProductMonotone(f, 1.0, span);
    ProductNonNegative(span, f);
    Commute(f, span);
    assert Times(1.0, span) == span;
    UnitCoordinates(spin(topic.id, k));
    ScaledCoordinate(Times(span, f), span, spin(topic.id, k).x);
    ScaledCoordinate(Times(span, f), span, spin(topic.id, k).y);
  }

  /** A skill point orbits its star without leaving the star's nebula. */
  lemma SkillReach(root: real -> real, spin: Spin, centre: Point, topic: Topic, k: nat, unit: string, m: nat)
    requires IsRoot(root) && IsSpin(spin) && k < |topic.units|
    ensures Within(StarmapSeparation.Plus(StarAt(root, spin, centre, topic, k), SkillOffset(spin, unit, m)),
                   centre, Radius(root, topic))
  {
    StarReach(root, spin, centre, topic, k);
    RadiusAtLeastOne(root, topic);
    UnitCoordinates(spin(unit, m));
    ScaledCoordinate(SKILL_ORBIT, SKILL_ORBIT, spin(unit, m).x);
    ScaledCoordinate(SKILL_ORBIT, SKILL_ORBIT, spin(unit, m).y);
  }

  /** Whatever stays within a nebula's radius is inside the frame. */
  lemma NebulaInsideFrame(root: real -> real, topics: seq<Topic>, centres: Centres, k: nat, p: Point)
    requires Placed(topics, centres) && k < |topics|
    requires Within(p, centres[topics[k].id], Radius(root, topics[k]))
    ensures InSquare(Apply(Frame(root, topics, centres), p))
  {
    EdgesInExtent(root, topics, centres, k, Horizontal);
    EdgesInExtent(root, topics, centres, k, Vertical);
    InsideFrame(ExtentOf(root, topics, centres, Horizontal), ExtentOf(root, topics, centres, Vertical), p);
  }

  lemma EdgesInExtent(root: real -> real, topics: seq<Topic>, centres: Centres, k: nat, axis: Axis)
    requires Placed(topics, centres) && k < |topics|
    ensures var e := ExtentOf(root, topics, centres, axis);
            var c, r := Coordinate(centres[topics[k].id], axis), Radius(root, topics[k]);
            e.low <= c - r && c + r <= e.high
  {
    assert Edges(root, topics, centres, axis, -1.0)[k] >= Least(Edges(root, topics, centres, axis, -1.0));
    assert Edges(root, topics, centres, axis, 1.0)[k] <= Greatest(Edges(root, topics, centres, axis, 1.0));
  }

  // ── The finished map ────────────────────────────────────────────────────────

  datatype Reason =
    | NoPrevious
    | Requested
    | TopicsChanged
    | Outgrew(problem: Problem)

  datatype Layout = Layout(
    version: nat,
    transform: Transform,
    centres: Centres,
    nebulae: seq<Nebula>,
    stars: seq<Star>,
    skillPoints: seq<SkillPoint>,
    reason: Reason,
    recomputed: bool)

  function NebulaOf(root: real -> real, t: Transform, centres: Centres, topic: Topic): Nebula
    requires topic.id in centres
  {
    Nebula(topic.id, Apply(t, centres[topic.id]), LengthIn(t, Radius(root, topic)))
  }

  function StarOf(root: real -> real, spin: Spin, t: Transform, centres: Centres, topic: Topic, k: nat): Star
    requires topic.id in centres && k < |topic.units|
  {
    Star(topic.units[k], topic.id, Apply(t, StarAt(root, spin, centres[topic.id], topic, k)))
  }

  function StarsOf(root: real -> real, spin: Spin, t: Transform, centres: Centres, topic: Topic): seq<Star>
    requires topic.id in centres
  {
    seq(|topic.units|, k requires 0 <= k < |topic.units| => StarOf(root, spin, t, centres, topic, k))
  }

  function Nebulae(root: real -> real, t: Transform, centres: Centres, topics: seq<Topic>): (ns: seq<Nebula>)
    requires Placed(topics, centres)
    ensures |ns| == |topics|
  {
    seq(|topics|, k requires 0 <= k < |topics| => NebulaOf(root, t, centres, topics[k]))
  }

  function Stars(root: real -> real, spin: Spin, t: Transform, centres: Centres, topics: seq<Topic>): seq<Star>
    requires Placed(topics, centres)
  {
    if |topics| == 0 then []
    else
      var n := |topics| - 1;
      Stars(root, spin, t, centres, topics[..n]) + StarsOf(root, spin, t, centres, topics[n])
  }

  /** The raw place of a unit's star, if any topic has the unit. */
  function Anchor(root: real -> real, spin: Spin, centres: Centres, topics: seq<Topic>, unit: string): Option<Point>
    requires Placed(topics, centres)
  {
    if |topics| == 0 then None
    else
      var topic := topics[|topics| - 1];
      var k := LastIndex(topic.units, unit);
      if k >= 0 then Some(StarAt(root, spin, centres[topic.id], topic, k))
      else Anchor(root, spin, centres, topics[..|topics| - 1], unit)
  }

  function Owned(skills: seq<Skill>, unit: string): (owned: seq<Skill>)
    ensures forall k :: 0 <= k < |owned| ==> owned[k] in skills && owned[k].unit == unit
  {
    if |skills| == 0 then []
    else
      var n := |skills| - 1;
      Owned(skills[..n], unit) + if skills[n].unit == unit then [skills[n]] else []
  }

  /** A unit's skills are picked in order. */
  lemma {:induction false} OwnedPick(skills: seq<Skill>, unit: string)
    ensures Picks(Owned(skills, unit), skills, (s: Skill) => s.unit == unit)
  {
    if |skills| == 0 {
      PicksNone<Skill>((s: Skill) => s.unit == unit);
    } else {
      OwnedPick(skills[..|skills| - 1], unit);
      PicksOneMore(Owned(skills[..|skills| - 1], unit), skills, (s: Skill) => s.unit == unit);
    }
  }

  /** The units that own a skill, each once. */
  function Owners(skills: seq<Skill>): (owners: seq<string>)
    ensures forall u :: u in owners <==> exists k :: 0 <= k < |skills| && skills[k].unit == u
  {
    if |skills| == 0 then []
    else
      var n := |skills| - 1;
      var rest := Owners(skills[..n]);
      assert forall u :: u in rest ==> exists k :: 0 <= k < |skills| && skills[k].unit == u;
      assert skills[n].unit == skills[n].unit;
      if skills[n].unit in rest then rest else rest + [skills[n].unit]
  }

  /** The skill points around one star. */
  function Orbit(spin: Spin, t: Transform, anchor: Point, owned: seq<Skill>, unit: string): seq<SkillPoint> {
    seq(|owned|, k requires 0 <= k < |owned| =>
      SkillPoint(owned[k], Apply(t, StarmapSeparation.Plus(anchor, SkillOffset(spin, unit, k)))))
  }

  function SkillPointsOf(root: real -> real, spin: Spin, t: Transform, centres: Centres, topics: seq<Topic>,
                         skills: seq<Skill>, unit: string): seq<SkillPoint>
    requires Placed(topics, centres)
  {
    var anchor := Anchor(root, spin, centres, topics, unit);
    var owned := Owned(skills, unit);
    if anchor.None? then [] else Orbit(spin, t, anchor.value, owned, unit)
  }

  function Grouped(root: real -> real, spin: Spin, t: Transform, centres: Centres, topics: seq<Topic>,
                   skills: seq<Skill>, owners: seq<string>): seq<SkillPoint>
    requires Placed(topics, centres)
  {
    if |owners| == 0 then []
    else
      var n := |owners| - 1;
      Grouped(root, spin, t, centres, topics, skills, owners[..n])
      + SkillPointsOf(root, spin, t, centres, topics, skills, owners[n])
  }

  predicate BySkill(a: SkillPoint, b: SkillPoint) {
    AtOrBefore(a.skill.id, b.skill.id)
  }

  function SkillPoints(root: real -> real, spin: Spin, t: Transform, centres: Centres, topics: seq<Topic>,
                       skills: seq<Skill>): seq<SkillPoint>
    requires Placed(topics, centres)
  {
    Sorted(Grouped(root, spin, t, centres, topics, skills, Sorted(Owners(skills), AtOrBefore)), BySkill)
  }

  /** The map of a subject in a given frame with given centres. */
  function Rendered(root: real -> real, spin: Spin, topics: seq<Topic>, skills: seq<Skill>, version: nat,
                    t: Transform, centres: Centres, reason: Reason, recomputed: bool): Layout
    requires Placed(topics, centres)
  {
    Layout(version, t, centres, Nebulae(root, t, centres, topics), Stars(root, spin, t, centres, topics),
           SkillPoints(root, spin, t, centres, topics, skills), reason, recomputed)
  }

  /** The renderer's loop: nebula and stars topic by topic, then skill points unit by unit. */
  method Render(root: real -> real, spin: Spin, topics: seq<Topic>, skills: seq<Skill>, version: nat,
                t: Transform, centres: Centres, reason: Reason, recomputed: bool) returns (layout: Layout)
    requires Placed(topics, centres)
    ensures layout == Rendered(root, spin, topics, skills, version, t, centres, reason, recomputed)
  {
    var nebulae: seq<Nebula>, stars: seq<Star>, anchors: map<string, Point> := [], [], map[];
    for n := 0 to |topics|
      invariant nebulae == Nebulae(root, t, centres, topics[..n])
      invariant stars == Stars(root, spin, t, centres, topics[..n])
      invariant AnchorsOf(root, spin, centres, topics[..n], anchors)
    {
      assert topics[..n + 1][..n] == topics[..n];
      nebulae := nebulae + [NebulaOf(root, t, centres, topics[n])];
      var more: seq<Star>;
      more, anchors := RenderTopic(root, spin, t, centres, topics[..n], topics[n], anchors);
      stars := stars + more;
      assert topics[..n] + [topics[n]] == topics[..n + 1];
    }
    assert topics[..|topics|] == topics;
    var points := RenderSkills(root, spin, t, centres, topics, skills, anchors);
    return Layout(version, t, centres, nebulae, stars, Sorted(points, BySkill), reason, recomputed);
  }

  /** The raw star places collected so far, by unit. */
  ghost predicate AnchorsOf(root: real -> real, spin: Spin, centres: Centres, topics: seq<Topic>,
                            anchors: map<string, Point>)
    requires Placed(topics, centres)
  {
    forall unit :: Anchor(root, spin, centres, topics, unit) == if unit in anchors then Some(anchors[unit]) else None
  }

  method RenderTopic(root: real -> real, spin: Spin, t: Transform, centres: Centres, ghost topics: seq<Topic>,
                     topic: Topic, before: map<string, Point>) returns (stars: seq<Star>, anchors: map<string, Point>)
    requires Placed(topics, centres) && topic.id in centres && AnchorsOf(root, spin, centres, topics, before)
    ensures stars == StarsOf(root, spin, t, centres, topic)
    ensures AnchorsOf(root, spin, centres, topics + [topic], anchors)
  {
    stars, anchors := [], before;
    for k := 0 to |topic.units|
      invariant stars == StarsOf(root, spin, t, centres, topic)[..k]
      invariant AddsUnits(root, spin, centres[topic.id], topic, before, anchors, k)
    {
      OneMoreAnchor(root, spin, centres[topic.id], topic, before, anchors, k);
      stars := stars + [StarOf(root, spin, t, centres, topic, k)];
      anchors := anchors[topic.units[k] := StarAt(root, spin, centres[topic.id], topic, k)];
    }
    AllUnitsAdded(root, spin, centres, topics, topic, before, anchors);
  }

  /** The raw places after the first units of a topic: the last place of each, and the others as before. */
  ghost predicate AddsUnits(root: real -> real, spin: Spin, centre: Point, topic: Topic, before: map<string, Point>,
                            anchors: map<string, Point>, k: nat)
    requires k <= |topic.units|
  {
    && (forall unit :: unit in anchors <==> unit in before || unit in topic.units[..k])
    && (forall unit :: unit in topic.units[..k]
          ==> anchors[unit] == StarAt(root, spin, centre, topic, LastIndex(topic.units[..k], unit)))
    && (forall unit :: unit in before && unit !in topic.units[..k] ==> anchors[unit] == before[unit])
  }

  lemma OneMoreAnchor(root: real -> real, spin: Spin, centre: Point, topic: Topic, before: map<string, Point>,
                      anchors: map<string, Point>, k: nat)
    requires k < |topic.units| && AddsUnits(root, spin, centre, topic, before, anchors, k)
    ensures AddsUnits(root, spin, centre, topic, before,
                      anchors[topic.units[k] := StarAt(root, spin, centre, topic, k)], k + 1)
  {
    OneMoreUnit(topic.units, k);
  }

  lemma AllUnitsAdded(root: real -> real, spin: Spin, centres: Centres, topics: seq<Topic>, topic: Topic,
                      before: map<string, Point>, anchors: map<string, Point>)
    requires Placed(topics, centres) && topic.id in centres && AnchorsOf(root, spin, centres, topics, before)
    requires AddsUnits(root, spin, centres[topic.id], topic, before, anchors, |topic.units|)
    ensures AnchorsOf(root, spin, centres, topics + [topic], anchors)
  {
    assert topic.units[..|topic.units|] == topic.units;
    assert (topics + [topic])[..|topics|] == topics;
  }

  lemma OneMoreUnit(units: seq<string>, k: nat)
    requires k < |units|
    ensures units[..k + 1][..k] == units[..k]
    ensures forall u :: u in units[..k + 1] <==> u in units[..k] || u == units[k]
    ensures forall u :: u in units[..k + 1] ==>
              LastIndex(units[..k + 1], u) == if u == units[k] then k else LastIndex(units[..k], u)
  {
    var more := units[..k + 1];
    assert more == units[..k] + [units[k]] && more[..k] == units[..k];
    forall u | u in more ensures LastIndex(more, u) == if u == units[k] then k else LastIndex(units[..k], u) {
      assert |more| - 1 == k && more[k] == units[k];
    }
  }

  lemma GroupedGrows(root: real -> real, spin: Spin, t: Transform, centres: Centres, topics: seq<Topic>,
                     skills: seq<Skill>, owners: seq<string>, n: nat)
    requires Placed(topics, centres) && n < |owners|
    ensures Grouped(root, spin, t, centres, topics, skills, owners[..n + 1])
         == Grouped(root, spin, t, centres, topics, skills, owners[..n])
            + SkillPointsOf(root, spin, t, centres, topics, skills, owners[n])
  {
    assert owners[..n + 1][..n] == owners[..n];
  }

  method RenderSkills(root: real -> real, spin: Spin, t: Transform, centres: Centres, topics: seq<Topic>,
                      skills: seq<Skill>, anchors: map<string, Point>) returns (points: seq<SkillPoint>)
    requires Placed(topics, centres) && AnchorsOf(root, spin, centres, topics, anchors)
    ensures points == Grouped(root, spin, t, centres, topics, skills, Sorted(Owners(skills), AtOrBefore))
  {
    var owners := Sorted(Owners(skills), AtOrBefore);
    points := [];
    for n := 0 to |owners|
      invariant points == Grouped(root, spin, t, centres, topics, skills, owners[..n])
    {
      GroupedGrows(root, spin, t, centres, topics, skills, owners, n);
      var unit := owners[n];
      if unit in anchors {
        points := points + Orbit(spin, t, anchors[unit], Owned(skills, unit), unit);
      }
    }
    assert owners[..|owners|] == owners;
  }

  // ── Validation ──────────────────────────────────────────────────────────────

  /** When two nebulae are too close for their radii, beyond what rounding explains. */
  ghost predicate Close(root: real -> real, one: Nebula, other: Nebula) {
    Hypot(root, Minus(one.place, other.place))
    < StarmapSeparation.NEBULA_CLEARANCE * (one.radius + other.radius) - COORD_TOLERANCE
  }

  /** What is wrong with a finished map. */
  ghost predicate IsProblem(root: real -> real, layout: Layout, p: Problem) {
    match p
    case NebulaOutside(topic) => exists n :: n in layout.nebulae && n.topic == topic && !InSquare(n.place)
    case StarOutside(unit) => exists s :: s in layout.stars && s.unit == unit && !InSquare(s.place)
    case SkillOutside(skill) => exists s :: s in layout.skillPoints && s.skill.id == skill && !InSquare(s.place)
    case TooClose(one, other) =>
      exists i, j :: 0 <= i < j < |layout.nebulae| && layout.nebulae[i].topic == one && layout.nebulae[j].topic == other
                     && Close(root, layout.nebulae[i], layout.nebulae[j])
  }

  ghost predicate Valid(root: real -> real, layout: Layout) {
    forall p :: !IsProblem(root, layout, p)
  }

  /** The checks of a finished map, in order: exactly its problems, and none for a good map. */
  method ValidateLayout(root: real -> real, layout: Layout) returns (problems: seq<Problem>)
    ensures forall p :: p in problems <==> IsProblem(root, layout, p)
    ensures problems == [] <==> Valid(root, layout)
  {
    var nebulae := NebulaeOutside(layout.nebulae);
    var stars := StarsOutside(layout.stars);
    var skills := SkillsOutside(layout.skillPoints);
    var close := ClosePairs(root, layout.nebulae);
    problems := nebulae + stars + skills + close;
    forall p ensures p in problems <==> IsProblem(root, layout, p) {
      ProblemIsOneOf(root, layout, p);
    }
    if problems != [] {
      assert problems[0] in problems;
    }
  }

  ghost predicate NebulaAtFault(nebulae: seq<Nebula>, k: int, p: Problem) {
    0 <= k < |nebulae| && !InSquare(nebulae[k].place) && p == NebulaOutside(nebulae[k].topic)
  }

  ghost predicate StarAtFault(stars: seq<Star>, k: int, p: Problem) {
    0 <= k < |stars| && !InSquare(stars[k].place) && p == StarOutside(stars[k].unit)
  }

  ghost predicate SkillAtFault(points: seq<SkillPoint>, k: int, p: Problem) {
    0 <= k < |points| && !InSquare(points[k].place) && p == SkillOutside(points[k].skill.id)
  }

  ghost predicate PairAtFault(root: real -> real, nebulae: seq<Nebula>, i: int, j: int, p: Problem) {
    0 <= i < j < |nebulae| && Close(root, nebulae[i], nebulae[j]) && p == TooClose(nebulae[i].topic, nebulae[j].topic)
  }

  /** A problem of a map is one of its four kinds. */
  lemma ProblemIsOneOf(root: real -> real, layout: Layout, p: Problem)
    ensures IsProblem(root, layout, p)
            <==> || (exists k :: NebulaAtFault(layout.nebulae, k, p))
                 || (exists k :: StarAtFault(layout.stars, k, p))
                 || (exists k :: SkillAtFault(layout.skillPoints, k, p))
                 || (exists i, j :: PairAtFault(root, layout.nebulae, i, j, p))
  {
    match p
    case NebulaOutside(topic) =>
      if n :| n in layout.nebulae && n.topic == topic && !InSquare(n.place) {
        var k: nat :| k < |layout.nebulae| && layout.nebulae[k] == n;
        assert NebulaAtFault(layout.nebulae, k, p);
      }
    case StarOutside(unit) =>
      if x :| x in layout.stars && x.unit == unit && !InSquare(x.place) {
        var k: nat :| k < |layout.stars| && layout.stars[k] == x;
        assert StarAtFault(layout.stars, k, p);
      }
    case SkillOutside(skill) =>
      if x :| x in layout.skillPoints && x.skill.id == skill && !InSquare(x.place) {
        var k: nat :| k < |layout.skillPoints| && layout.skillPoints[k] == x;
        assert SkillAtFault(layout.skillPoints, k, p);
      }
    case TooClose(one, other) =>
      if i: nat, j: nat :|
        i < j < |layout.nebulae| && layout.nebulae[i].topic == one && layout.nebulae[j].topic == other
                           && Close(root, layout.nebulae[i], layout.nebulae[j]) {
        assert PairAtFault(root, layout.nebulae, i, j, p);
      }
  }

  method NebulaeOutside(nebulae: seq<Nebula>) returns (problems: seq<Problem>)
    ensures forall p :: p in problems <==> exists k :: NebulaAtFault(nebulae, k, p)
  {
    problems := [];
    for n := 0 to |nebulae|
      invariant forall p :: p in problems <==> exists k :: k < n && NebulaAtFault(nebulae, k, p)
    {
      if !InSquare(nebulae[n].place) {
        assert NebulaAtFault(nebulae, n, NebulaOutside(nebulae[n].topic));
        problems := problems + [NebulaOutside(nebulae[n].topic)];
      }
    }
  }

  method StarsOutside(stars: seq<Star>) returns (problems: seq<Problem>)
    ensures forall p :: p in problems <==> exists k :: StarAtFault(stars, k, p)
  {
    problems := [];
    for n := 0 to |stars|
      invariant forall p :: p in problems <==> exists k :: k < n && StarAtFault(stars, k, p)
    {
      if !InSquare(stars[n].place) {
        assert StarAtFault(stars, n, StarOutside(stars[n].unit));
        problems := problems + [StarOutside(stars[n].unit)];
      }
    }
  }

  method SkillsOutside(points: seq<SkillPoint>) returns (problems: seq<Problem>)
    ensures forall p :: p in problems <==> exists k :: SkillAtFault(points, k, p)
  {
    problems := [];
    for n := 0 to |points|
      invariant forall p :: p in problems <==> exists k :: k < n && SkillAtFault(points, k, p)
    {
      if !InSquare(points[n].place) {
        assert SkillAtFault(points, n, SkillOutside(points[n].skill.id));
        problems := problems + [SkillOutside(points[n].skill.id)];
      }
    }
  }

  method ClosePairs(root: real -> real, nebulae: seq<Nebula>) returns (problems: seq<Problem>)
    ensures forall p :: p in problems <==> exists i, j :: PairAtFault(root, nebulae, i, j, p)
  {
    problems := [];
    for i := 0 to |nebulae|
      invariant forall p :: p in problems <==> exists a, b :: a < i && PairAtFault(root, nebulae, a, b, p)
    {
      for j := i + 1 to |nebulae|
        invariant forall p ::
                    p in problems
                    <==> exists a, b :: (a < i || (a == i && b < j)) && PairAtFault(root, nebulae, a, b, p)
      {
        var needed := StarmapSeparation.NEBULA_CLEARANCE * (nebulae[i].radius + nebulae[j].radius);
        if Hypot(root, Minus(nebulae[i].place, nebulae[j].place)) < needed - COORD_TOLERANCE {
          assert Close(root, nebulae[i], nebulae[j]);
          assert PairAtFault(root, nebulae, i, j, TooClose(nebulae[i].topic, nebulae[j].topic));
          problems := problems + [TooClose(nebulae[i].topic, nebulae[j].topic)];
        }
      }
    }
  }

  lemma NothingWrong(root: real -> real, layout: Layout)
    requires forall k :: 0 <= k < |layout.nebulae| ==> InSquare(layout.nebulae[k].place)
    requires forall k :: 0 <= k < |layout.stars| ==> InSquare(layout.stars[k].place)
    requires forall k :: 0 <= k < |layout.skillPoints| ==> InSquare(layout.skillPoints[k].place)
    requires forall i, j :: 0 <= i < j < |layout.nebulae| ==> !Close(root, layout.nebulae[i], layout.nebulae[j])
    ensures Valid(root, layout)
  {
    forall p ensures !IsProblem(root, layout, p) {
      match p
      case NebulaOutside(_) =>
      case StarOutside(_) =>
      case SkillOutside(_) =>
      case TooClose(_, _) =>
    }
  }

  // ── A freshly computed map ──────────────────────────────────────────────────

  /** Every topic has a unit, so every nebula has a radius of at least one. */
  ghost predicate Populated(topics: seq<Topic>) {
    forall k :: 0 <= k < |topics| ==> |topics[k].units| > 0
  }

  ghost function Fresh(root: real -> real, spin: Spin, topics: seq<Topic>, skills: seq<Skill>, version: nat,
                       centres: Centres, reason: Reason): Layout
    requires |topics| > 0 && Placed(topics, centres)
  {
    Rendered(root, spin, topics, skills, version, Frame(root, topics, centres), centres, reason, true)
  }

  lemma {:induction false} StarComesFrom(root: real -> real, spin: Spin, t: Transform, centres: Centres,
                                         topics: seq<Topic>, s: Star)
    returns (i: nat, k: nat)
    requires Placed(topics, centres) && s in Stars(root, spin, t, centres, topics)
    ensures i < |topics| && k < |topics[i].units| && s == StarOf(root, spin, t, centres, topics[i], k)
  {
    var n := |topics| - 1;
    if s in Stars(root, spin, t, centres, topics[..n]) {
      i, k := StarComesFrom(root, spin, t, centres, topics[..n], s);
    } else {
      i := n;
      k :| 0 <= k < |topics[n].units| && s == StarsOf(root, spin, t, centres, topics[n])[k];
    }
  }

  lemma {:induction false} AnchorComesFrom(root: real -> real, spin: Spin, centres: Centres, topics: seq<Topic>,
                                           unit: string)
    returns (i: nat, k: nat)
    requires Placed(topics, centres) && Anchor(root, spin, centres, topics, unit).Some?
    ensures i < |topics| && k < |topics[i].units| && topics[i].units[k] == unit
    ensures Anchor(root, spin, centres, topics, unit) == Some(StarAt(root, spin, centres[topics[i].id], topics[i], k))
  {
    var n := |topics| - 1;
    var last := LastIndex(topics[n].units, unit);
    if last >= 0 {
      i, k := n, last;
    } else {
      i, k := AnchorComesFrom(root, spin, centres, topics[..n], unit);
    }
  }

  lemma {:induction false} GroupedComesFrom(root: real -> real, spin: Spin, t: Transform, centres: Centres,
                                            topics: seq<Topic>, skills: seq<Skill>, owners: seq<string>, p: SkillPoint)
    returns (unit: string, k: nat)
    requires Placed(topics, centres) && p in Grouped(root, spin, t, centres, topics, skills, owners)
    ensures unit in owners && Anchor(root, spin, centres, topics, unit).Some? && k < |Owned(skills, unit)|
    ensures p == Orbit(spin, t, Anchor(root, spin, centres, topics, unit).value, Owned(skills, unit), unit)[k]
  {
    var n := |owners| - 1;
    if p in Grouped(root, spin, t, centres, topics, skills, owners[..n]) {
      unit, k := GroupedComesFrom(root, spin, t, centres, topics, skills, owners[..n], p);
    } else {
      unit := owners[n];
      k :| 0 <= k < |Owned(skills, unit)|
           && p == SkillPointsOf(root, spin, t, centres, topics, skills, unit)[k];
    }
  }

  /** No nebula, star or skill point of a freshly computed map is outside the unit square. */
  lemma FreshMapIsInsideFrame(root: real -> real, spin: Spin, topics: seq<Topic>, skills: seq<Skill>, version: nat,
                              centres: Centres, reason: Reason)
    requires IsRoot(root) && IsSpin(spin) && |topics| > 0 && Placed(topics, centres) && Populated(topics)
    ensures var layout := Fresh(root, spin, topics, skills, version, centres, reason);
            && (forall n :: n in layout.nebulae ==> InSquare(n.place))
            && (forall s :: s in layout.stars ==> InSquare(s.place))
            && (forall p :: p in layout.skillPoints ==> InSquare(p.place))
  {
    var t := Frame(root, topics, centres);
    forall n | n in Nebulae(root, t, centres, topics) ensures InSquare(n.place) {
      var k :| 0 <= k < |topics| && n == NebulaOf(root, t, centres, topics[k]);
      RadiusAtLeastOne(root, topics[k]);
      NebulaInsideFrame(root, topics, centres, k, centres[topics[k].id]);
    }
    forall s | s in Stars(root, spin, t, centres, topics) ensures InSquare(s.place) {
      var i, k := StarComesFrom(root, spin, t, centres, topics, s);
      StarReach(root, spin, centres[topics[i].id], topics[i], k);
      RadiusAtLeastOne(root, topics[i]);
      NebulaInsideFrame(root, topics, centres, i, StarAt(root, spin, centres[topics[i].id], topics[i], k));
    }
    forall p | p in SkillPoints(root, spin, t, centres, topics, skills) ensures InSquare(p.place) {
      var owners := Sorted(Owners(skills), AtOrBefore);
      SortMembers(Grouped(root, spin, t, centres, topics, skills, owners), BySkill);
      var unit, m := GroupedComesFrom(root, spin, t, centres, topics, skills, owners, p);
      var i, k := AnchorComesFrom(root, spin, centres, topics, unit);
      SkillReach(root, spin, centres[topics[i].id], topics[i], k, unit, m);
      NebulaInsideFrame(root, topics, centres, i,
                        StarmapSeparation.Plus(StarAt(root, spin, centres[topics[i].id], topics[i], k),
                                               SkillOffset(spin, unit, m)));
    }
  }

  // ── Clearance survives scaling and rounding ─────────────────────────────────

  lemma ScaledHypot(root: real -> real, d: Point, scale: real)
    requires IsRoot(root) && scale >= 0.0
    ensures Hypot(root, Point(Times(d.x, scale), Times(d.y, scale))) == Times(Hypot(root, d), scale)
  {
    var v, h := Point(Times(d.x, scale), Times(d.y, scale)), Hypot(root, d);
    HypotSquared(root, d);
    HypotSquared(root, v);
    ProductSquared(d.x, scale);
    ProductSquared(d.y, scale);
    ProductSquared(h, scale);
    Distribute(Times(d.x, d.x), Times(d.y, d.y), Times(scale, scale));
    ProductNonNegative(h, scale);
    SquareOrder(Hypot(root, v), Times(h, scale));
    SquareOrder(Times(h, scale), Hypot(root, v));
  }

  lemma SmallError(root: real -> real, e: Point)
    requires IsRoot(root) && -2.0 * HALF_STEP <= e.x <= 2.0 * HALF_STEP && -2.0 * HALF_STEP <= e.y <= 2.0 * HALF_STEP
    ensures Hypot(root, e) <= 4.0 * HALF_STEP
  {
    var x, y := Point(e.x, 0.0), Point(0.0, e.y);
    AxisLength(root, e.x);
    AxisLength(root, e.y);
    TriangleInequality(root, x, y);
    assert Point(x.x + y.x, x.y + y.y) == e;
  }

  lemma AxisLength(root: real -> real, a: real)
    requires IsRoot(root) && -2.0 * HALF_STEP <= a <= 2.0 * HALF_STEP
    ensures Hypot(root, Point(a, 0.0)) <= 2.0 * HALF_STEP && Hypot(root, Point(0.0, a)) <= 2.0 * HALF_STEP
  {
    var b := if a < 0.0 then -a else a;
    NegatedSquare(a);
    SquareAtMost(b, 2.0 * HALF_STEP);
    assert Times(0.0, 0.0) == 0.0;
    HypotSquared(root, Point(a, 0.0));
    HypotSquared(root, Point(0.0, a));
    SquareOrder(Hypot(root, Point(a, 0.0)), 2.0 * HALF_STEP);
    SquareOrder(Hypot(root, Point(0.0, a)), 2.0 * HALF_STEP);
  }

  lemma SquareAtMost(a: real, b: real)
    requires 0.0 <= a <= b
    ensures Times(a, a) <= Times(b, b)
  {
    ProductMonotone(a, b, a);
    ProductMonotone(a, b, b);
    Commute(a, b);
  }

  /** Two centres that keep their clearance still do on the finished map. */
  lemma ClearPairIsNotClose(root: real -> real, t: Transform, a: Point, b: Point, ra: real, rb: real, one: Nebula,
                            other: Nebula)
    requires IsRoot(root) && t.scale > 0.0
    requires Hypot(root, Minus(a, b)) >= StarmapSeparation.NEBULA_CLEARANCE * (ra + rb)
    requires one.place == Apply(t, a) && one.radius == LengthIn(t, ra)
    requires other.place == Apply(t, b) && other.radius == LengthIn(t, rb)
    ensures !Close(root, one, other)
  {
    var d := Minus(a, b);
    var scaled := Point(Times(d.x, t.scale), Times(d.y, t.scale));
    var shown := Minus(one.place, other.place);
    var error := Minus(scaled, shown);
    Distribute(a.x, b.x, t.scale);
    Distribute(a.y, b.y, t.scale);
    RoundingError(Times(a.x, t.scale) + t.offset.x);
    RoundingError(Times(a.y, t.scale) + t.offset.y);
    RoundingError(Times(b.x, t.scale) + t.offset.x);
    RoundingError(Times(b.y, t.scale) + t.offset.y);
    SmallError(root, error);
    TriangleInequality(root, shown, error);
    assert Point(shown.x + error.x, shown.y + error.y) == scaled;
    ScaledHypot(root, d, t.scale);
    RoundingError(Times(ra, t.scale));
    RoundingError(Times(rb, t.scale));
    ScaledClearance(ra, rb, Hypot(root, d), t.scale);
  }

  lemma ScaledClearance(ra: real, rb: real, distance: real, scale: real)
    requires scale > 0.0 && distance >= StarmapSeparation.NEBULA_CLEARANCE * (ra + rb)
    ensures Times(distance, scale) >= StarmapSeparation.NEBULA_CLEARANCE * (Times(ra, scale) + Times(rb, scale))
  {
    ProductMonotone(StarmapSeparation.NEBULA_CLEARANCE * (ra + rb), distance, scale);
    Distribute(StarmapSeparation.NEBULA_CLEARANCE * ra, StarmapSeparation.NEBULA_CLEARANCE * rb, scale);
  }

  /** The centres of the topics in order, as the separation passes see them. */
  ghost function CentreList(topics: seq<Topic>, centres: Centres): (points: seq<Point>)
    requires Placed(topics, centres)
    ensures |points| == |topics|
  {
    seq(|topics|, k requires 0 <= k < |topics| => centres[topics[k].id])
  }

  ghost function RadiusList(root: real -> real, topics: seq<Topic>): (radii: seq<real>)
    ensures |radii| == |topics|
  {
    seq(|topics|, k requires 0 <= k < |topics| => Radius(root, topics[k]))
  }

  /** When the separation settled, a freshly computed map has no problem at all. */
  lemma SettledMapIsValid(root: real -> real, spin: Spin, topics: seq<Topic>, skills: seq<Skill>, version: nat,
                          centres: Centres, reason: Reason)
    requires IsRoot(root) && IsSpin(spin) && |topics| > 0 && Placed(topics, centres) && Populated(topics)
    requires StarmapSeparation.Cleared(root, CentreList(topics, centres), RadiusList(root, topics))
    ensures Valid(root, Fresh(root, spin, topics, skills, version, centres, reason))
  {
    var layout := Fresh(root, spin, topics, skills, version, centres, reason);
    var t := layout.transform;
    var x, radii := CentreList(topics, centres), RadiusList(root, topics);
    FreshMapIsInsideFrame(root, spin, topics, skills, version, centres, reason);
    ScaleFits(ExtentOf(root, topics, centres, Horizontal), ExtentOf(root, topics, centres, Vertical), 0.0);
    forall i, j | 0 <= i < j < |layout.nebulae| ensures !Close(root, layout.nebulae[i], layout.nebulae[j]) {
      assert StarmapSeparation.Clears(root, x, radii, i, j);
      SameLength(root, x[i], x[j]);
      ClearPairIsNotClose(root, t, x[i], x[j], radii[i], radii[j], layout.nebulae[i], layout.nebulae[j]);
    }
    NothingWrong(root, layout);
  }

  lemma SameLength(root: real -> real, a: Point, b: Point)
    ensures Hypot(root, Minus(a, b)) == Hypot(root, Minus(b, a))
  {
    NegatedSquare(a.x - b.x);
    NegatedSquare(a.y - b.y);
  }
}
