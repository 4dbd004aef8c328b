/** Building and storing a subject's map in `scripts/layout_starmap.py`: when the previous
    layout carries over, what then stays put, and what a second run writes. */
module StarmapBuild {
  import opened Options
  import opened Reals
  import opened Lookup
  import opened Sorting
  import opened StarmapFrame
  import StarmapDistances
  import StarmapSeparation
  import StarmapStress

  const SEED: int := 20260928

  // ── Counting the links between topics ───────────────────────────────────────

  datatype Requirement = Requirement(unit: string, requires_: seq<string>)

  /** Two different topic names in order. */
  type Pair = (string, string)

  type Weights = map<Pair, nat>

  function TopicOf(topics: seq<Topic>, unit: string): Option<string> {
    if |topics| == 0 then None
    else
      var last := topics[|topics| - 1];
      if unit in last.units then Some(last.id) else TopicOf(topics[..|topics| - 1], unit)
  }

  /** The pair of topics a prerequisite crosses, if it crosses two. */
  function Crossed(topics: seq<Topic>, unit: string, before: string): Option<Pair> {
    var here, there := TopicOf(topics, unit), TopicOf(topics, before);
    if here.None? || there.None? || here == there then None
    else if AtOrBefore(here.value, there.value) then Some((here.value, there.value))
    else Some((there.value, here.value))
  }

  ghost function CountIn(topics: seq<Topic>, unit: string, befores: seq<string>, pair: Pair): nat {
    if |befores| == 0 then 0
    else
      var n := |befores| - 1;
      CountIn(topics, unit, befores[..n], pair) + if Crossed(topics, unit, befores[n]) == Some(pair) then 1 else 0
  }

  /** How many prerequisites cross a pair of topics. */
  ghost function Crossings(topics: seq<Topic>, requirements: seq<Requirement>, pair: Pair): nat {
    if |requirements| == 0 then 0
    else
      var n := |requirements| - 1;
      Crossings(topics, requirements[..n], pair)
      + CountIn(topics, requirements[n].unit, requirements[n].requires_, pair)
  }

  method NebulaEdges(topics: seq<Topic>, requirements: seq<Requirement>) returns (weights: Weights)
    ensures forall pair :: pair in weights <==> Crossings(topics, requirements, pair) > 0
    ensures forall pair :: pair in weights ==> weights[pair] == Crossings(topics, requirements, pair)
  {
    weights := map[];
    for n := 0 to |requirements|
      invariant forall pair :: pair in weights <==> Crossings(topics, requirements[..n], pair) > 0
      invariant forall pair :: pair in weights ==> weights[pair] == Crossings(topics, requirements[..n], pair)
    {
      var r := requirements[n];
      assert requirements[..n + 1][..n] == requirements[..n];
      for k := 0 to |r.requires_|
        invariant forall pair :: pair in weights
                    <==> 0 < Crossings(topics, requirements[..n], pair)
                             + CountIn(topics, r.unit, r.requires_[..k], pair)
        invariant forall pair :: pair in weights ==>
                    weights[pair]
                    == Crossings(topics, requirements[..n], pair) + CountIn(topics, r.unit, r.requires_[..k], pair)
      {
        assert r.requires_[..k + 1][..k] == r.requires_[..k];
        var pair := Crossed(topics, r.unit, r.requires_[k]);
        if pair.Some? {
          weights := weights[pair.value := (if pair.value in weights then weights[pair.value] else 0) + 1];
        }
      }
      assert r.requires_[..|r.requires_|] == r.requires_;
    }
    assert requirements[..|requirements|] == requirements;
  }

  /** A weight is positive and its pair names two topics in order, the lesser first. */
  lemma {:induction false} CrossingsAreOrdered(topics: seq<Topic>, requirements: seq<Requirement>, pair: Pair)
    requires Crossings(topics, requirements, pair) > 0
    ensures pair.0 != pair.1 && AtOrBefore(pair.0, pair.1)
  {
    var n := |requirements| - 1;
    if Crossings(topics, requirements[..n], pair) > 0 {
      CrossingsAreOrdered(topics, requirements[..n], pair);
    } else {
      CountedIsOrdered(topics, requirements[n].unit, requirements[n].requires_, pair);
    }
  }

  lemma {:induction false} CountedIsOrdered(topics: seq<Topic>, unit: string, befores: seq<string>, pair: Pair)
    requires CountIn(topics, unit, befores, pair) > 0
    ensures pair.0 != pair.1 && AtOrBefore(pair.0, pair.1)
  {
    var n := |befores| - 1;
    if Crossed(topics, unit, befores[n]) == Some(pair) {
      StringsTotal(pair.0, pair.1);
    } else {
      CountedIsOrdered(topics, unit, befores[..n], pair);
    }
  }

  /** The items of the weights as links, in some order. */
  method LinksOf(weights: Weights) returns (links: seq<StarmapDistances.Link>)
    requires forall pair :: pair in weights ==> weights[pair] >= 1
    ensures forall link ::
              link in links
              <==> (link.left, link.right) in weights && weights[(link.left, link.right)] == link.weight
    ensures forall k :: 0 <= k < |links| ==> links[k].weight >= 1
  {
    links := [];
    var left := weights.Keys;
    while left != {}
      invariant left <= weights.Keys
      invariant forall link ::
                  link in links
                  <==> (link.left, link.right) in weights.Keys - left && weights[(link.left, link.right)] == link.weight
      decreases left
    {
      var pair :| pair in left;
      links := links + [StarmapDistances.Link(pair.0, pair.1, weights[pair])];
      left := left - {pair};
    }
  }

  // ── Building ────────────────────────────────────────────────────────────────

  /** The part of a stored layout that a later run starts from. */
  datatype Previous = Previous(version: nat, transform: Transform, centres: Centres, reason: Reason)

  datatype Subject = Subject(topics: seq<Topic>, skills: seq<Skill>, requirements: seq<Requirement>)

  ghost predicate WellFormed(subject: Subject) {
    Populated(subject.topics) && DistinctIds(subject.topics)
  }

  ghost predicate DistinctIds(topics: seq<Topic>) {
    forall i, j :: 0 <= i < j < |topics| ==> topics[i].id != topics[j].id
  }

  function Ids(topics: seq<Topic>): (ids: seq<string>)
    ensures |ids| == |topics|
  {
    seq(|topics|, k requires 0 <= k < |topics| => topics[k].id)
  }

  function IdSet(topics: seq<Topic>): set<string> {
    set k | 0 <= k < |topics| :: topics[k].id
  }

  ghost function Carried(root: real -> real, spin: Spin, subject: Subject, previous: Previous): Layout
    requires previous.centres.Keys == IdSet(subject.topics)
  {
    Rendered(root, spin, subject.topics, subject.skills, previous.version, previous.transform, previous.centres,
             previous.reason, false)
  }

  /** The rule for keeping a previous layout: not asked to recompute, the same topics, and
      nothing wrong with the map it gives. */
  ghost predicate CarriesOver(root: real -> real, spin: Spin, subject: Subject, previous: Option<Previous>,
                              relayout: bool) {
    && previous.Some? && !relayout
    && previous.value.centres.Keys == IdSet(subject.topics)
    && Valid(root, Carried(root, spin, subject, previous.value))
  }

  function NextVersion(previous: Option<Previous>): nat {
    if previous.None? then 1 else previous.value.version + 1
  }

  /** The links of a subject: one for every pair of topics that prerequisites cross. */
  ghost predicate OwnLinks(subject: Subject, links: seq<StarmapDistances.Link>) {
    forall link: StarmapDistances.Link ::
      link in links <==> Crossings(subject.topics, subject.requirements, (link.left, link.right)) == link.weight > 0
  }

  /** The target distances of a subject, from its own links. */
  ghost predicate OwnTargets(root: real -> real, subject: Subject, targets: seq<seq<real>>) {
    exists links, unrelated :: FromLinks(root, subject, targets, links, unrelated)
  }

  ghost predicate FromLinks(root: real -> real, subject: Subject, targets: seq<seq<real>>,
                            links: seq<StarmapDistances.Link>, unrelated: real) {
    && OwnLinks(subject, links) && StarmapDistances.Links(root, links)
    && StarmapDistances.TargetMatrix(
         StarmapDistances.DirectTable(root, Ids(subject.topics), links), |subject.topics|, targets, unrelated)
  }

  /** A subject has one matrix of target distances. */
  lemma OwnTargetsAreUnique(root: real -> real, subject: Subject, a: seq<seq<real>>, b: seq<seq<real>>)
    requires OwnTargets(root, subject, a) && OwnTargets(root, subject, b)
    ensures a == b
  {
    var links, far :| FromLinks(root, subject, a, links, far);
    var links', far' :| FromLinks(root, subject, b, links', far');
    StarmapDistances.TargetsAreDetermined(root, Ids(subject.topics), links, links', a, far, b, far');
  }

  /** The raw places of a subject's topics: the ring, majorised and separated. */
  ghost function RawPlaces(root: real -> real, turn: nat -> Point, ring: seq<Point>, subject: Subject,
                           targets: seq<seq<real>>): seq<Point>
    requires StarmapStress.Targets(targets, |ring|)
  {
    StarmapSeparation.Separated(root, turn, StarmapStress.Majorised(root, targets, ring),
                                RadiusList(root, subject.topics))
  }

  /** The centres are the subject's own ring, majorised towards its own targets and separated. */
  ghost predicate PlacedFor(root: real -> real, turn: nat -> Point, ring: seq<Point>, subject: Subject,
                            centres: Centres) {
    && centres.Keys == IdSet(subject.topics) && Placed(subject.topics, centres)
    && exists targets :: OwnTargets(root, subject, targets) && StarmapStress.Targets(targets, |ring|)
                         && CentreList(subject.topics, centres) == RawPlaces(root, turn, ring, subject, targets)
  }

  /** Whether the separation of that ring settles. */
  ghost predicate SettlesFor(root: real -> real, turn: nat -> Point, ring: seq<Point>, subject: Subject) {
    exists targets :: OwnTargets(root, subject, targets) && StarmapStress.Targets(targets, |ring|)
      && StarmapSeparation.Settles(root, turn, StarmapStress.Majorised(root, targets, ring),
                                   RadiusList(root, subject.topics))
  }

  /** What a recomputed layout is: the map of the subject's own fresh centres, and a new version. */
  ghost predicate Recomputed(root: real -> real, spin: Spin, turn: nat -> Point, ring: seq<Point>, subject: Subject,
                             previous: Option<Previous>, layout: Layout) {
    && |subject.topics| > 0
    && PlacedFor(root, turn, ring, subject, layout.centres)
    && layout == Fresh(root, spin, subject.topics, subject.skills, NextVersion(previous), layout.centres, layout.reason)
  }

  /** The layout of a subject, given the previous one. */
  ghost predicate Built(root: real -> real, spin: Spin, turn: nat -> Point, ring: seq<Point>, subject: Subject,
                        previous: Option<Previous>, relayout: bool, layout: Layout) {
    if CarriesOver(root, spin, subject, previous, relayout)
    then layout == Carried(root, spin, subject, previous.value)
    else Recomputed(root, spin, turn, ring, subject, previous, layout)
  }

  /** The rules by which a layout is recomputed, in the order they are tried. */
  ghost predicate Explains(root: real -> real, spin: Spin, subject: Subject, previous: Option<Previous>, relayout: bool,
                           reason: Reason) {
    match reason
    case NoPrevious => previous.None?
    case Requested => previous.Some? && relayout
    case TopicsChanged => previous.Some? && !relayout && previous.value.centres.Keys != IdSet(subject.topics)
    case Outgrew(p) =>
      && previous.Some? && !relayout && previous.value.centres.Keys == IdSet(subject.topics)
      && IsProblem(root, Carried(root, spin, subject, previous.value), p)
  }

  /** The whole map, or nothing for a subject without a topic. */
  method BuildLayout(root: real -> real, spin: Spin, turn: nat -> Point, ring: seq<Point>, subject: Subject,
                     previous: Option<Previous>, relayout: bool) returns (built: Option<Layout>)
    requires IsRoot(root) && IsSpin(spin) && WellFormed(subject) && |ring| == |subject.topics|
    ensures built.None? <==> subject.topics == []
    ensures built.Some? ==> Built(root, spin, turn, ring, subject, previous, relayout, built.value)
    ensures built.Some? && built.value.recomputed ==>
              Explains(root, spin, subject, previous, relayout, built.value.reason)
    // A recomputed map is inside the frame, and has no problem when the separation settled.
    ensures built.Some? && built.value.recomputed ==> InsideFrameOnly(root, built.value)
    ensures built.Some? && built.value.recomputed && SettlesFor(root, turn, ring, subject) ==> Valid(root, built.value)
  {
    if subject.topics == [] {
      return None;
    }
    var reason := NoPrevious;
    if previous.Some? {
      if relayout {
        reason := Requested;
      } else if previous.value.centres.Keys != IdSet(subject.topics) {
        reason := TopicsChanged;
      } else {
        var p := previous.value;
        var carried := Render(root, spin, subject.topics, subject.skills, p.version, p.transform, p.centres, p.reason,
                              false);
        var problems := ValidateLayout(root, carried);
        if problems == [] {
          return Some(carried);
        }
        assert problems[0] in problems;
        reason := Outgrew(problems[0]);
      }
    }
    assert !CarriesOver(root, spin, subject, previous, relayout) by {
      if previous.Some? && !relayout && previous.value.centres.Keys == IdSet(subject.topics) {
        assert IsProblem(root, Carried(root, spin, subject, previous.value), reason.problem);
      }
    }
    var layout := Recompute(root, spin, turn, ring, subject, previous, reason);
    return Some(layout);
  }

  /** A fresh map, for a reason. */
  method Recompute(root: real -> real, spin: Spin, turn: nat -> Point, ring: seq<Point>, subject: Subject,
                   previous: Option<Previous>, reason: Reason) returns (layout: Layout)
    requires IsRoot(root) && IsSpin(spin) && WellFormed(subject) && |ring| == |subject.topics| > 0
    ensures Recomputed(root, spin, turn, ring, subject, previous, layout) && layout.recomputed
            && layout.reason == reason
    ensures InsideFrameOnly(root, layout) && (SettlesFor(root, turn, ring, subject) ==> Valid(root, layout))
  {
    var centres := Place(root, turn, ring, subject);
    var t := Frame(root, subject.topics, centres);
    layout := Render(root, spin, subject.topics, subject.skills, NextVersion(previous), t, centres, reason, true);
    FreshIsSound(root, spin, subject, NextVersion(previous), centres, reason);
  }

  /** A fresh map is inside the frame, and has no problem at all when its centres are clear. */
  lemma FreshIsSound(root: real -> real, spin: Spin, subject: Subject, version: nat, centres: Centres, reason: Reason)
    requires IsRoot(root) && IsSpin(spin) && WellFormed(subject) && |subject.topics| > 0
             && Placed(subject.topics, centres)
    ensures InsideFrameOnly(root, Fresh(root, spin, subject.topics, subject.skills, version, centres, reason))
    ensures StarmapSeparation.Cleared(root, CentreList(subject.topics, centres), RadiusList(root, subject.topics)) ==>
              Valid(root, Fresh(root, spin, subject.topics, subject.skills, version, centres, reason))
  {
    FreshMapIsInsideFrame(root, spin, subject.topics, subject.skills, version, centres, reason);
    if StarmapSeparation.Cleared(root, CentreList(subject.topics, centres), RadiusList(root, subject.topics)) {
      SettledMapIsValid(root, spin, subject.topics, subject.skills, version, centres, reason);
    }
  }

  /** The only problem a map may have is two nebulae too close to each other. */
  ghost predicate InsideFrameOnly(root: real -> real, layout: Layout) {
    forall p :: IsProblem(root, layout, p) ==> p.TooClose?
  }

  /** Fresh centres: targets from the links, majorised stress, then separation. */
  method Place(root: real -> real, turn: nat -> Point, ring: seq<Point>, subject: Subject)
    returns (centres: Centres)
    requires IsRoot(root) && WellFormed(subject) && |ring| == |subject.topics|
    ensures PlacedFor(root, turn, ring, subject, centres)
    ensures SettlesFor(root, turn, ring, subject) ==>
              StarmapSeparation.Cleared(root, CentreList(subject.topics, centres), RadiusList(root, subject.topics))
  {
    var topics := subject.topics;
    var targets := Targets(root, subject);
    var majorised := StarmapStress.StressMajorise(root, ring, targets);
    var radii := seq(|topics|, k requires 0 <= k < |topics| => Radius(root, topics[k]));
    assert RadiusList(root, topics) == radii;
    var points;
    ghost var settled;
    points, settled := StarmapSeparation.Separate(root, turn, majorised, radii);
    centres := NameCentres(topics, points);
    NamedPoints(topics, points, centres);
    assert CentreList(topics, centres) == RawPlaces(root, turn, ring, subject, targets);
    if SettlesFor(root, turn, ring, subject) {
      var other :| OwnTargets(root, subject, other) && StarmapStress.Targets(other, |ring|)
        && StarmapSeparation.Settles(root, turn, StarmapStress.Majorised(root, other, ring), radii);
      OwnTargetsAreUnique(root, subject, targets, other);
    }
  }

  lemma NamedPoints(topics: seq<Topic>, points: seq<Point>, centres: Centres)
    requires |points| == |topics| && centres.Keys == IdSet(topics)
    requires forall k :: 0 <= k < |topics| ==> topics[k].id in centres && centres[topics[k].id] == points[k]
    ensures Placed(topics, centres) && CentreList(topics, centres) == points
  {
  }

  /** The target distances of a subject's topics, from the prerequisites that cross them. */
  method Targets(root: real -> real, subject: Subject) returns (targets: seq<seq<real>>)
    requires IsRoot(root) && WellFormed(subject)
    ensures StarmapStress.Targets(targets, |subject.topics|) && OwnTargets(root, subject, targets)
  {
    var ids := Ids(subject.topics);
    var weights := NebulaEdges(subject.topics, subject.requirements);
    var links := LinksOf(weights);
    targets := StarmapDistances.TargetDistances(root, ids, links);
    ghost var unrelated :|
      StarmapDistances.TargetMatrix(StarmapDistances.DirectTable(root, ids, links), |ids|, targets, unrelated);
    StarmapDistances.DirectIsGraph(root, ids, links);
    StarmapDistances.TargetsAreSymmetricAndPositive(
      StarmapDistances.DirectTable(root, ids, links), |ids|, targets, unrelated);
    assert FromLinks(root, subject, targets, links, unrelated);
  }

  method NameCentres(topics: seq<Topic>, points: seq<Point>) returns (centres: Centres)
    requires |points| == |topics| && DistinctIds(topics)
    ensures centres.Keys == IdSet(topics)
    ensures forall k :: 0 <= k < |topics| ==> topics[k].id in centres && centres[topics[k].id] == points[k]
  {
    centres := map[];
    for k := 0 to |topics|
      invariant centres.Keys == IdSet(topics[..k])
      invariant forall m :: 0 <= m < k ==> topics[m].id in centres && centres[topics[m].id] == points[m]
    {
      centres := centres[topics[k].id := points[k]];
      assert IdSet(topics[..k + 1]) == IdSet(topics[..k]) + {topics[k].id};
    }
    assert topics[..|topics|] == topics;
  }

  // ── Stability ───────────────────────────────────────────────────────────────

  /** No unit is listed twice, in one topic or in two. */
  ghost predicate DistinctUnits(topics: seq<Topic>) {
    && (forall i, a, b :: 0 <= i < |topics| && 0 <= a < b < |topics[i].units| ==>
          topics[i].units[a] != topics[i].units[b])
    && (forall i, j, u :: 0 <= i < j < |topics| && u in topics[i].units ==> u !in topics[j].units)
  }

  function StarsIn(stars: seq<Star>, nebula: string): seq<Star> {
    if |stars| == 0 then []
    else
      var n := |stars| - 1;
      StarsIn(stars[..n], nebula) + if stars[n].nebula == nebula then [stars[n]] else []
  }

  lemma {:induction false} StarsInAppend(a: seq<Star>, b: seq<Star>, nebula: string)
    ensures StarsIn(a + b, nebula) == StarsIn(a, nebula) + StarsIn(b, nebula)
  {
    if |b| == 0 {
      assert a + b == a;
    } else {
      var n := |b| - 1;
      StarsInAppend(a, b[..n], nebula);
      assert (a + b)[..|a| + n] == a + b[..n];
    }
  }

  lemma {:induction false} AllIn(stars: seq<Star>, nebula: string)
    requires forall k :: 0 <= k < |stars| ==> stars[k].nebula == nebula
    ensures StarsIn(stars, nebula) == stars
  {
    if |stars| > 0 {
      AllIn(stars[..|stars| - 1], nebula);
    }
  }

  lemma {:induction false} NoneIn(stars: seq<Star>, nebula: string)
    requires forall k :: 0 <= k < |stars| ==> stars[k].nebula != nebula
    ensures StarsIn(stars, nebula) == []
  {
    if |stars| > 0 {
      NoneIn(stars[..|stars| - 1], nebula);
    }
  }

  /** The stars of one nebula on the map are the spiral of its topic, in order. */
  lemma {:induction false} StarsOfOneTopic(root: real -> real, spin: Spin, t: Transform, centres: Centres,
                                           topics: seq<Topic>, i: nat)
    requires Placed(topics, centres) && DistinctIds(topics) && i < |topics|
    ensures StarsIn(Stars(root, spin, t, centres, topics), topics[i].id) == StarsOf(root, spin, t, centres, topics[i])
  {
    var n := |topics| - 1;
    var last := StarsOf(root, spin, t, centres, topics[n]);
    StarsInAppend(Stars(root, spin, t, centres, topics[..n]), last, topics[i].id);
    if i < n {
      StarsOfOneTopic(root, spin, t, centres, topics[..n], i);
      NoneIn(last, topics[i].id);
    } else {
      AllIn(last, topics[i].id);
      OtherTopics(root, spin, t, centres, topics[..n], topics[i].id);
    }
  }

  lemma {:induction false} OtherTopics(root: real -> real, spin: Spin, t: Transform, centres: Centres,
                                       topics: seq<Topic>, id: string)
    requires Placed(topics, centres) && forall k :: 0 <= k < |topics| ==> topics[k].id != id
    ensures StarsIn(Stars(root, spin, t, centres, topics), id) == []
  {
    if |topics| > 0 {
      var n := |topics| - 1;
      var last := StarsOf(root, spin, t, centres, topics[n]);
      OtherTopics(root, spin, t, centres, topics[..n], id);
      StarsInAppend(Stars(root, spin, t, centres, topics[..n]), last, id);
      NoneIn(last, id);
    }
  }

  lemma {:induction false} AnchorIsOwnStar(root: real -> real, spin: Spin, centres: Centres, topics: seq<Topic>, i: nat,
                                           k: nat)
    requires Placed(topics, centres) && DistinctUnits(topics) && i < |topics| && k < |topics[i].units|
    ensures Anchor(root, spin, centres, topics, topics[i].units[k])
            == Some(StarAt(root, spin, centres[topics[i].id], topics[i], k))
  {
    var n, unit := |topics| - 1, topics[i].units[k];
    if i < n {
      assert unit !in topics[n].units;
      AnchorIsOwnStar(root, spin, centres, topics[..n], i, k);
    } else {
      var last := LastIndex(topics[n].units, unit);
      assert last == k;
    }
  }

  lemma {:induction false} GroupedHas(root: real -> real, spin: Spin, t: Transform, centres: Centres,
                                      topics: seq<Topic>, skills: seq<Skill>, owners: seq<string>, unit: string)
    requires Placed(topics, centres) && unit in owners
    ensures forall p :: p in SkillPointsOf(root, spin, t, centres, topics, skills, unit)
              ==> p in Grouped(root, spin, t, centres, topics, skills, owners)
  {
    var n := |owners| - 1;
    if owners[n] != unit {
      GroupedHas(root, spin, t, centres, topics, skills, owners[..n], unit);
    }
  }

  lemma {:induction false} OwnsAreOwners(skills: seq<Skill>, unit: string)
    requires Owned(skills, unit) != []
    ensures unit in Owners(skills)
  {
    var n := |skills| - 1;
    if skills[n].unit != unit {
      OwnsAreOwners(skills[..n], unit);
    }
  }

  /** The skill points of one unit on the map are the orbit of its star. */
  lemma SkillPointsOfOneUnit(root: real -> real, spin: Spin, t: Transform, centres: Centres, topics: seq<Topic>,
                             skills: seq<Skill>, i: nat, k: nat, p: SkillPoint)
    requires Placed(topics, centres) && DistinctUnits(topics) && i < |topics| && k < |topics[i].units|
    requires p.skill.unit == topics[i].units[k]
    ensures var unit := topics[i].units[k];
            p in SkillPoints(root, spin, t, centres, topics, skills)
            <==> p in Orbit(spin, t, StarAt(root, spin, centres[topics[i].id], topics[i], k), Owned(skills, unit), unit)
  {
    var unit, owners := topics[i].units[k], Sorted(Owners(skills), AtOrBefore);
    var orbit := Orbit(spin, t, StarAt(root, spin, centres[topics[i].id], topics[i], k), Owned(skills, unit), unit);
    AnchorIsOwnStar(root, spin, centres, topics, i, k);
    assert SkillPointsOf(root, spin, t, centres, topics, skills, unit) == orbit;
    SortMembers(Grouped(root, spin, t, centres, topics, skills, owners), BySkill);
    SortMembers(Owners(skills), AtOrBefore);
    if p in SkillPoints(root, spin, t, centres, topics, skills) {
      var from, m := GroupedComesFrom(root, spin, t, centres, topics, skills, owners, p);
    }
    if p in orbit {
      OwnsAreOwners(skills, unit);
      GroupedHas(root, spin, t, centres, topics, skills, owners, unit);
    }
  }

  /** While the layout carries over, a change to the units of topic `changed` leaves the nebula,
      the stars and the skill points of every other topic exactly as they were. */
  lemma OtherTopicsStayPut(root: real -> real, spin: Spin, turn: nat -> Point, ring: seq<Point>, old_: Subject,
                           new_: Subject, previous: Previous, before: Layout, after: Layout, changed: nat, i: nat)
    requires DistinctIds(old_.topics) && DistinctUnits(old_.topics)
    requires DistinctUnits(new_.topics) && |new_.topics| == |old_.topics| && i < |old_.topics| && i != changed
    requires forall k :: 0 <= k < |old_.topics| ==> new_.topics[k].id == old_.topics[k].id
    requires forall k :: 0 <= k < |old_.topics| && k != changed ==> new_.topics[k] == old_.topics[k]
    requires forall u :: u in old_.topics[i].units ==> Owned(new_.skills, u) == Owned(old_.skills, u)
    requires Built(root, spin, turn, ring, old_, Some(previous), false, before) && !before.recomputed
    requires Built(root, spin, turn, ring, new_, Some(previous), false, after) && !after.recomputed
    ensures after.nebulae[i] == before.nebulae[i]
    ensures StarsIn(after.stars, old_.topics[i].id) == StarsIn(before.stars, old_.topics[i].id)
    ensures forall p: SkillPoint :: p.skill.unit in old_.topics[i].units
              ==> (p in after.skillPoints <==> p in before.skillPoints)
  {
    StarsOfOneTopic(root, spin, previous.transform, previous.centres, old_.topics, i);
    StarsOfOneTopic(root, spin, previous.transform, previous.centres, new_.topics, i);
    forall p: SkillPoint | p.skill.unit in old_.topics[i].units
      ensures p in after.skillPoints <==> p in before.skillPoints
    {
      var k :| 0 <= k < |old_.topics[i].units| && old_.topics[i].units[k] == p.skill.unit;
      SkillPointsOfOneUnit(root, spin, previous.transform, previous.centres, old_.topics, old_.skills, i, k, p);
      SkillPointsOfOneUnit(root, spin, previous.transform, previous.centres, new_.topics, new_.skills, i, k, p);
    }
  }

  // ── Writing it back ─────────────────────────────────────────────────────────

  /** A row of the table, by its sort key. */
  datatype Key = SubjectKey | TopicKey(id: string) | UnitKey(id: string) | SkillKey(sortKey: string)

  datatype Attribute = X | Y | NebulaRadius | NebulaId | LayoutVersion | StarmapLayout

  datatype Value =
    | Number(number: real)
    | Name(name: string)
    | Version(version: nat)
    | Record(seed: int, previous: Previous)

  type Attributes = map<Attribute, Value>

  /** What the curriculum authors, and what the layout wrote beside it. */
  datatype Row = Row(content: string, attributes: Attributes)

  type Rows = map<Key, Row>

  function LayoutRecord(layout: Layout): Value {
    Record(SEED, Previous(layout.version, layout.transform, layout.centres, layout.reason))
  }

  function NebulaRows(version: nat, nebulae: seq<Nebula>): map<Key, Attributes> {
    if |nebulae| == 0 then map[]
    else
      var nebula := nebulae[|nebulae| - 1];
      NebulaRows(version, nebulae[..|nebulae| - 1])[TopicKey(nebula.topic) := map[
        X := Number(nebula.place.x), Y := Number(nebula.place.y), NebulaRadius := Number(nebula.radius),
        LayoutVersion := Version(version)]]
  }

  function StarRows(version: nat, stars: seq<Star>): map<Key, Attributes> {
    if |stars| == 0 then map[]
    else
      var star := stars[|stars| - 1];
      StarRows(version, stars[..|stars| - 1])[UnitKey(star.unit) := map[
        X := Number(star.place.x), Y := Number(star.place.y), NebulaId := Name(star.nebula),
        LayoutVersion := Version(version)]]
  }

  function SkillRows(version: nat, points: seq<SkillPoint>): map<Key, Attributes> {
    if |points| == 0 then map[]
    else
      var p := points[|points| - 1];
      SkillRows(version, points[..|points| - 1])[SkillKey(p.skill.sortKey) := map[
        X := Number(p.place.x), Y := Number(p.place.y), LayoutVersion := Version(version)]]
  }

  /** Every row the layout owns, by key. */
  function DesiredAttributes(layout: Layout): map<Key, Attributes> {
    NebulaRows(layout.version, layout.nebulae) + StarRows(layout.version, layout.stars)
    + SkillRows(layout.version, layout.skillPoints)
    + map[SubjectKey := map[LayoutVersion := Version(layout.version), StarmapLayout := LayoutRecord(layout)]]
  }

  /** Whether a stored row already holds the wanted values. */
  predicate Holds(stored: Attributes, wanted: Attributes) {
    forall a :: a in wanted.Keys ==> a in stored && stored[a] == wanted[a]
  }

  /** The rows whose stored values differ from the layout, and nothing else. */
  function PlanWrites(layout: Layout, rows: Rows): map<Key, Attributes> {
    var wanted := DesiredAttributes(layout);
    map k | k in wanted && k in rows && !Holds(rows[k].attributes, wanted[k]) :: wanted[k]
  }

  function Written(rows: Rows, plan: map<Key, Attributes>): Rows {
    map k | k in rows :: if k in plan then rows[k].(attributes := rows[k].attributes + plan[k]) else rows[k]
  }

  function PreviousLayout(rows: Rows): Option<Previous>
    requires SubjectKey in rows
  {
    var attributes := rows[SubjectKey].attributes;
    if StarmapLayout in attributes && attributes[StarmapLayout].Record? && attributes[StarmapLayout].seed == SEED
    then Some(attributes[StarmapLayout].previous)
    else None
  }

  /** What collecting a subject reads: the authored content, never the layout attributes. */
  function Contents(rows: Rows): map<Key, string> {
    map k | k in rows :: rows[k].content
  }

  type Collector = map<Key, string> -> Subject

  datatype Report = Report(layout: Layout, writes: map<Key, Attributes>, problems: seq<Problem>, applied: bool)

  /** One run: build from the stored rows, plan the writes, and write them when there is no problem. */
  method Run(root: real -> real, spin: Spin, turn: nat -> Point, ring: seq<Point>, collect: Collector, rows: Rows,
             apply: bool, relayout: bool) returns (report: Option<Report>, stored: Rows)
    requires IsRoot(root) && IsSpin(spin) && SubjectKey in rows
    requires WellFormed(collect(Contents(rows))) && |ring| == |collect(Contents(rows)).topics|
    ensures report.None? <==> collect(Contents(rows)).topics == []
    ensures report.None? ==> stored == rows
    ensures report.Some? ==>
              && Built(root, spin, turn, ring, collect(Contents(rows)), PreviousLayout(rows), relayout,
                       report.value.layout)
              && report.value.writes == PlanWrites(report.value.layout, rows)
              && (report.value.applied <==> apply && Valid(root, report.value.layout))
              && stored == if report.value.applied then Written(rows, report.value.writes) else rows
  {
    var subject := collect(Contents(rows));
    var built := BuildLayout(root, spin, turn, ring, subject, PreviousLayout(rows), relayout);
    if built.None? {
      return None, rows;
    }
    var layout := built.value;
    var writes := PlanWrites(layout, rows);
    var problems := ValidateLayout(root, layout);
    if apply && problems == [] {
      return Some(Report(layout, writes, problems, true)), Written(rows, writes);
    }
    return Some(Report(layout, writes, problems, false)), rows;
  }

  /** Writing leaves the authored content alone, so collecting reads the same subject again. */
  lemma WritingKeepsContents(rows: Rows, plan: map<Key, Attributes>)
    ensures Contents(Written(rows, plan)) == Contents(rows)
  {
  }

  lemma RecordStored(layout: Layout, rows: Rows)
    requires SubjectKey in rows
    ensures PreviousLayout(Written(rows, PlanWrites(layout, rows)))
            == Some(Previous(layout.version, layout.transform, layout.centres, layout.reason))
  {
    var wanted := DesiredAttributes(layout);
    assert wanted[SubjectKey] == map[LayoutVersion := Version(layout.version), StarmapLayout := LayoutRecord(layout)];
    assert StarmapLayout in wanted[SubjectKey].Keys;
    assert Holds(Written(rows, PlanWrites(layout, rows))[SubjectKey].attributes, wanted[SubjectKey]);
  }

  /** What was just written is not written again. */
  lemma WrittenHolds(layout: Layout, rows: Rows)
    ensures PlanWrites(layout, Written(rows, PlanWrites(layout, rows))) == map[]
  {
    var wanted, stored := DesiredAttributes(layout), Written(rows, PlanWrites(layout, rows));
    forall k | k in wanted && k in stored ensures Holds(stored[k].attributes, wanted[k]) {
    }
  }

  /** Whether a map was just recomputed matters neither to its problems nor to its rows. */
  lemma RecomputedDoesNotMatter(root: real -> real, a: Layout, rows: Rows)
    ensures Valid(root, a) ==> Valid(root, a.(recomputed := false))
    ensures PlanWrites(a.(recomputed := false), rows) == PlanWrites(a, rows)
  {
    var b := a.(recomputed := false);
    forall p ensures IsProblem(root, b, p) <==> IsProblem(root, a, p) {
    }
    assert DesiredAttributes(b) == DesiredAttributes(a);
  }

  /** The stored record reproduces the layout it was written from. */
  lemma RecordReproduces(root: real -> real, spin: Spin, turn: nat -> Point, ring: seq<Point>, subject: Subject,
                         previous: Option<Previous>, relayout: bool, first: Layout)
    requires Built(root, spin, turn, ring, subject, previous, relayout, first)
    ensures first.centres.Keys == IdSet(subject.topics)
    ensures Carried(root, spin, subject, Previous(first.version, first.transform, first.centres, first.reason))
            == first.(recomputed := false)
  {
  }

  /** After a run that wrote its layout, the next one carries it over and plans no writes. */
  lemma SecondRunPlansNothing(root: real -> real, spin: Spin, turn: nat -> Point, ring: seq<Point>, collect: Collector,
                              rows: Rows, relayout: bool, first: Layout, second: Layout)
    requires SubjectKey in rows
    requires Built(root, spin, turn, ring, collect(Contents(rows)), PreviousLayout(rows), relayout, first)
    requires Valid(root, first)
    requires var stored := Written(rows, PlanWrites(first, rows));
             Built(root, spin, turn, ring, collect(Contents(stored)), PreviousLayout(stored), false, second)
    ensures second == first.(recomputed := false)
    ensures PlanWrites(second, Written(rows, PlanWrites(first, rows))) == map[]
  {
    var stored := Written(rows, PlanWrites(first, rows));
    var subject := collect(Contents(rows));
    WritingKeepsContents(rows, PlanWrites(first, rows));
    RecordStored(first, rows);
    RecordReproduces(root, spin, turn, ring, subject, PreviousLayout(rows), relayout, first);
    RecomputedDoesNotMatter(root, first, stored);
    assert CarriesOver(root, spin, subject, PreviousLayout(stored), false);
    WrittenHolds(first, rows);
  }
}
