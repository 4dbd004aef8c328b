/** What a second run of `scripts/layout_starmap.py` rewrites after one topic was edited: the rows of
    that topic and no other. */
module StarmapEdits {
  import opened Options
  import opened Reals
  import opened StarmapFrame
  import opened StarmapBuild

  // ── The row of each entity ──────────────────────────────────────────────────

  function NebulaRow(version: nat, nebula: Nebula): Attributes {
    map[X := Number(nebula.place.x), Y := Number(nebula.place.y), NebulaRadius := Number(nebula.radius),
        LayoutVersion := Version(version)]
  }

  function StarRow(version: nat, star: Star): Attributes {
    map[X := Number(star.place.x), Y := Number(star.place.y), NebulaId := Name(star.nebula),
        LayoutVersion := Version(version)]
  }

  function SkillRow(version: nat, p: SkillPoint): Attributes {
    map[X := Number(p.place.x), Y := Number(p.place.y), LayoutVersion := Version(version)]
  }

  lemma {:induction false} NebulaRowOf(version: nat, nebulae: seq<Nebula>, nebula: Nebula)
    requires nebula in nebulae && forall other :: other in nebulae && other.topic == nebula.topic ==> other == nebula
    ensures TopicKey(nebula.topic) in NebulaRows(version, nebulae)
    ensures NebulaRows(version, nebulae)[TopicKey(nebula.topic)] == NebulaRow(version, nebula)
  {
    var n := |nebulae| - 1;
    assert nebulae == nebulae[..n] + [nebulae[n]];
    if nebulae[n] != nebula {
      NebulaRowOf(version, nebulae[..n], nebula);
    }
  }

  lemma {:induction false} StarRowOf(version: nat, stars: seq<Star>, star: Star)
    requires star in stars && forall other :: other in stars && other.unit == star.unit ==> other == star
    ensures UnitKey(star.unit) in StarRows(version, stars)
    ensures StarRows(version, stars)[UnitKey(star.unit)] == StarRow(version, star)
  {
    var n := |stars| - 1;
    assert stars == stars[..n] + [stars[n]];
    if stars[n] != star {
      StarRowOf(version, stars[..n], star);
    }
  }

  lemma {:induction false} SkillRowOf(version: nat, points: seq<SkillPoint>, p: SkillPoint)
    requires p in points && forall other :: other in points && other.skill.sortKey == p.skill.sortKey ==> other == p
    ensures SkillKey(p.skill.sortKey) in SkillRows(version, points)
    ensures SkillRows(version, points)[SkillKey(p.skill.sortKey)] == SkillRow(version, p)
  {
    var n := |points| - 1;
    assert points == points[..n] + [points[n]];
    if points[n] != p {
      SkillRowOf(version, points[..n], p);
    }
  }

  lemma KindsOfKeys(layout: Layout)
    ensures forall k :: k in NebulaRows(layout.version, layout.nebulae) ==> k.TopicKey?
    ensures forall k :: k in StarRows(layout.version, layout.stars) ==> k.UnitKey?
    ensures forall k :: k in SkillRows(layout.version, layout.skillPoints) ==> k.SkillKey?
  {
    NebulaKeys(layout.version, layout.nebulae);
    StarKeys(layout.version, layout.stars);
    SkillKeys(layout.version, layout.skillPoints);
  }

  lemma {:induction false} NebulaKeys(version: nat, nebulae: seq<Nebula>)
    ensures forall k :: k in NebulaRows(version, nebulae) ==> k.TopicKey?
  {
    if |nebulae| > 0 {
      NebulaKeys(version, nebulae[..|nebulae| - 1]);
    }
  }

  lemma {:induction false} StarKeys(version: nat, stars: seq<Star>)
    ensures forall k :: k in StarRows(version, stars) ==> k.UnitKey?
  {
    if |stars| > 0 {
      StarKeys(version, stars[..|stars| - 1]);
    }
  }

  lemma {:induction false} SkillKeys(version: nat, points: seq<SkillPoint>)
    ensures forall k :: k in SkillRows(version, points) ==> k.SkillKey?
  {
    if |points| > 0 {
      SkillKeys(version, points[..|points| - 1]);
    }
  }

  /** No two entities of a map share a row. */
  ghost predicate OneRowEach(layout: Layout) {
    && (forall a, b :: a in layout.nebulae && b in layout.nebulae && a.topic == b.topic ==> a == b)
    && (forall a, b :: a in layout.stars && b in layout.stars && a.unit == b.unit ==> a == b)
    && (forall a, b :: a in layout.skillPoints && b in layout.skillPoints && a.skill.sortKey == b.skill.sortKey ==>
          a == b)
  }

  ghost predicate HasRow(layout: Layout, k: Key, attributes: Attributes) {
    k in DesiredAttributes(layout) && DesiredAttributes(layout)[k] == attributes
  }

  lemma NebulaHasRow(layout: Layout, nebula: Nebula)
    requires OneRowEach(layout) && nebula in layout.nebulae
    ensures HasRow(layout, TopicKey(nebula.topic), NebulaRow(layout.version, nebula))
  {
    NebulaRowOf(layout.version, layout.nebulae, nebula);
    KindsOfKeys(layout);
  }

  lemma StarHasRow(layout: Layout, star: Star)
    requires OneRowEach(layout) && star in layout.stars
    ensures HasRow(layout, UnitKey(star.unit), StarRow(layout.version, star))
  {
    StarRowOf(layout.version, layout.stars, star);
    KindsOfKeys(layout);
  }

  lemma SkillHasRow(layout: Layout, p: SkillPoint)
    requires OneRowEach(layout) && p in layout.skillPoints
    ensures HasRow(layout, SkillKey(p.skill.sortKey), SkillRow(layout.version, p))
  {
    SkillRowOf(layout.version, layout.skillPoints, p);
    KindsOfKeys(layout);
  }

  // ── What the second run writes ──────────────────────────────────────────────

  /** Editing the authored content leaves what the layout wrote beside it. */
  ghost predicate Edits(stored: Rows, edited: Rows) {
    forall k :: k in stored && k in edited ==> edited[k].attributes == stored[k].attributes
  }

  /** A row that a map wrote, and that the next map wants the same, is not written again. */
  lemma NotPlanned(first: Layout, second: Layout, rows: Rows, edited: Rows, k: Key, attributes: Attributes)
    requires k in rows && Edits(Written(rows, PlanWrites(first, rows)), edited)
    requires HasRow(first, k, attributes) && HasRow(second, k, attributes)
    ensures k !in PlanWrites(second, edited)
  {
    var stored := Written(rows, PlanWrites(first, rows));
    assert Holds(stored[k].attributes, attributes);
  }

  /** Only the units of one topic, and the skills they own, differ. */
  ghost predicate EditsTopic(old_: Subject, new_: Subject, changed: nat) {
    && DistinctIds(old_.topics) && DistinctUnits(old_.topics) && DistinctUnits(new_.topics)
    && |new_.topics| == |old_.topics|
    && (forall k :: 0 <= k < |old_.topics| ==> new_.topics[k].id == old_.topics[k].id)
    && (forall k :: 0 <= k < |old_.topics| && k != changed ==> new_.topics[k] == old_.topics[k])
    && (forall k, u :: 0 <= k < |old_.topics| && k != changed && u in old_.topics[k].units ==>
                         Owned(new_.skills, u) == Owned(old_.skills, u))
  }

  /** The rows of one topic: its nebula, its stars and their skill points. */
  ghost predicate IsRowOf(layout: Layout, topic: Topic, k: Key) {
    || k == TopicKey(topic.id)
    || (k.UnitKey? && k.id in topic.units)
    || (exists p: SkillPoint ::
          p in layout.skillPoints && p.skill.unit in topic.units && k == SkillKey(p.skill.sortKey))
  }

  /** A topic is on both maps in the same way. */
  ghost predicate StaysPut(before: Layout, after: Layout, topic: Topic) {
    && before.version == after.version && LayoutRecord(before) == LayoutRecord(after)
    && (exists nebula :: nebula in before.nebulae && nebula in after.nebulae && nebula.topic == topic.id)
    && StarsIn(after.stars, topic.id) == StarsIn(before.stars, topic.id)
    && (forall u :: u in topic.units ==> exists star :: star in StarsIn(before.stars, topic.id) && star.unit == u)
    && (forall p: SkillPoint :: p.skill.unit in topic.units ==> (p in after.skillPoints <==> p in before.skillPoints))
  }

  lemma {:induction false} StarsInAre(stars: seq<Star>, nebula: string)
    ensures forall star :: star in StarsIn(stars, nebula) ==> star in stars
  {
    if |stars| > 0 {
      StarsInAre(stars[..|stars| - 1], nebula);
    }
  }

  /** A topic that stays put has the same rows on both maps. */
  lemma SameRow(before: Layout, after: Layout, topic: Topic, k: Key) returns (attributes: Attributes)
    requires OneRowEach(before) && OneRowEach(after) && StaysPut(before, after, topic)
    requires k == SubjectKey || IsRowOf(before, topic, k)
    ensures HasRow(before, k, attributes) && HasRow(after, k, attributes)
  {
    if k == SubjectKey {
      attributes := map[LayoutVersion := Version(before.version), StarmapLayout := LayoutRecord(before)];
    } else if k == TopicKey(topic.id) {
      var nebula :| nebula in before.nebulae && nebula in after.nebulae && nebula.topic == topic.id;
      NebulaHasRow(before, nebula);
      NebulaHasRow(after, nebula);
      attributes := NebulaRow(before.version, nebula);
    } else if k.UnitKey? && k.id in topic.units {
      var star :| star in StarsIn(before.stars, topic.id) && star.unit == k.id;
      StarsInAre(before.stars, topic.id);
      StarsInAre(after.stars, topic.id);
      StarHasRow(before, star);
      StarHasRow(after, star);
      attributes := StarRow(before.version, star);
    } else {
      var p: SkillPoint :| p in before.skillPoints && p.skill.unit in topic.units && k == SkillKey(p.skill.sortKey);
      SkillHasRow(before, p);
      SkillHasRow(after, p);
      attributes := SkillRow(before.version, p);
    }
  }

  lemma UnitHasStar(root: real -> real, spin: Spin, t: Transform, centres: Centres, topic: Topic, unit: string)
    requires topic.id in centres && unit in topic.units
    ensures exists star :: star in StarsOf(root, spin, t, centres, topic) && star.unit == unit
  {
    var k :| 0 <= k < |topic.units| && topic.units[k] == unit;
    assert StarsOf(root, spin, t, centres, topic)[k] == StarOf(root, spin, t, centres, topic, k);
  }

  lemma TopicStaysPut(root: real -> real, spin: Spin, turn: nat -> Point, ring: seq<Point>, old_: Subject,
                      new_: Subject, previous: Previous, before: Layout, after: Layout, changed: nat, i: nat)
    requires EditsTopic(old_, new_, changed) && i < |old_.topics| && i != changed
    requires previous.centres.Keys == IdSet(old_.topics) == IdSet(new_.topics)
    requires Built(root, spin, turn, ring, old_, Some(previous), false, before) && !before.recomputed
    requires Built(root, spin, turn, ring, new_, Some(previous), false, after) && !after.recomputed
    ensures StaysPut(before, after, old_.topics[i])
  {
    var topic := old_.topics[i];
    OtherTopicsStayPut(root, spin, turn, ring, old_, new_, previous, before, after, changed, i);
    StarsOfOneTopic(root, spin, previous.transform, previous.centres, old_.topics, i);
    assert before.nebulae[i] in before.nebulae && before.nebulae[i] in after.nebulae;
    forall u | u in topic.units ensures exists star :: star in StarsIn(before.stars, topic.id) && star.unit == u {
      UnitHasStar(root, spin, previous.transform, previous.centres, topic, u);
    }
  }

  /** After a run that wrote its map, recomputed or not, and an edit of one topic, a run that carries
      the map over writes no row of any other topic and no new record. */
  lemma EditRewritesOwnRows(root: real -> real, spin: Spin, turn: nat -> Point, ring: seq<Point>, collect: Collector,
                            rows: Rows, relayout: bool, edited: Rows, first: Layout, second: Layout,
                            changed: nat, i: nat, k: Key)
    requires SubjectKey in rows && SubjectKey in edited && k in rows
    requires Built(root, spin, turn, ring, collect(Contents(rows)), PreviousLayout(rows), relayout, first)
    requires Valid(root, first) && Edits(Written(rows, PlanWrites(first, rows)), edited)
    requires Built(root, spin, turn, ring, collect(Contents(edited)), PreviousLayout(edited), false, second)
    requires !second.recomputed && OneRowEach(first) && OneRowEach(second)
    requires EditsTopic(collect(Contents(rows)), collect(Contents(edited)), changed)
    requires i < |collect(Contents(rows)).topics| && i != changed
    requires k == SubjectKey || IsRowOf(first, collect(Contents(rows)).topics[i], k)
    ensures k !in PlanWrites(second, edited)
  {
    var old_, new_ := collect(Contents(rows)), collect(Contents(edited));
    RecordKept(first, rows, edited);
    WrittenAgain(root, spin, turn, ring, old_, PreviousLayout(rows), relayout, first);
    SameIds(old_, new_);
    TopicStaysPut(root, spin, turn, ring, old_, new_, RecordOf(first), first.(recomputed := false), second, changed, i);
    SameRowAgain(first, second, old_.topics[i], rows, edited, k);
  }

  /** A map that was written carries over to itself. */
  lemma WrittenAgain(root: real -> real, spin: Spin, turn: nat -> Point, ring: seq<Point>, subject: Subject,
                     previous: Option<Previous>, relayout: bool, first: Layout)
    requires Built(root, spin, turn, ring, subject, previous, relayout, first) && Valid(root, first)
    ensures RecordOf(first).centres.Keys == IdSet(subject.topics)
    ensures Built(root, spin, turn, ring, subject, Some(RecordOf(first)), false, first.(recomputed := false))
  {
    RecordReproduces(root, spin, turn, ring, subject, previous, relayout, first);
    RecomputedDoesNotMatter(root, first, map[]);
    assert CarriesOver(root, spin, subject, Some(RecordOf(first)), false);
  }

  lemma SameRowAgain(first: Layout, second: Layout, topic: Topic, rows: Rows, edited: Rows, k: Key)
    requires k in rows && Edits(Written(rows, PlanWrites(first, rows)), edited)
    requires OneRowEach(first) && OneRowEach(second) && StaysPut(first.(recomputed := false), second, topic)
    requires k == SubjectKey || IsRowOf(first, topic, k)
    ensures k !in PlanWrites(second, edited)
  {
    var before := first.(recomputed := false);
    assert DesiredAttributes(before) == DesiredAttributes(first);
    var attributes := SameRow(before, second, topic, k);
    NotPlanned(first, second, rows, edited, k, attributes);
  }

  function RecordOf(layout: Layout): Previous {
    Previous(layout.version, layout.transform, layout.centres, layout.reason)
  }

  lemma RecordKept(first: Layout, rows: Rows, edited: Rows)
    requires SubjectKey in rows && SubjectKey in edited
    requires Edits(Written(rows, PlanWrites(first, rows)), edited)
    ensures PreviousLayout(edited) == Some(RecordOf(first))
  {
    RecordStored(first, rows);
  }

  lemma SameIds(old_: Subject, new_: Subject)
    requires |new_.topics| == |old_.topics|
    requires forall k :: 0 <= k < |old_.topics| ==> new_.topics[k].id == old_.topics[k].id
    ensures IdSet(new_.topics) == IdSet(old_.topics)
  {
  }
}
