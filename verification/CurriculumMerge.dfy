/** The merge pass of `scripts/knowledge_base_import.py`: the stars of a nebula joined into larger
    ones, and both passes together. */
module CurriculumMerge {
  import opened Lists
  import opened CurriculumStructure
  import opened Options
  import opened Sorting

  const MIN_MERGED_POINTS: nat := 6

  /** A merged star a batch offers: the first-pass stars it joins. */
  datatype MergeOffer = MergeOffer(slug: string, units: seq<string>, sound: bool)

  datatype MergeBatch = MergeBatch(nebula: string, offers: seq<MergeOffer>)

  /** What the batches made: the merged stars, the nebulae that are done, and what was wrong. */
  datatype Merge = Merge(stars: Stars, done: set<string>, problems: seq<Problem>)

  // ── The points of some stars ────────────────────────────────────────────────

  function UnitsOf(stars: Stars, nebula: string): set<string> {
    set u | u in stars && stars[u].topic == nebula
  }

  function UnitLists(offers: seq<MergeOffer>): (lists: seq<seq<string>>)
    ensures |lists| == |offers|
  {
    seq(|offers|, k requires 0 <= k < |offers| => offers[k].units)
  }

  /** The points of some stars, star after star. */
  function PointsOf(stars: Stars, units: seq<string>): seq<string>
    requires forall u :: u in units ==> u in stars
  {
    if |units| == 0 then []
    else
      var n := |units| - 1;
      PointsOf(stars, units[..n]) + stars[units[n]].points
  }

  ghost function Covered(stars: Stars, units: set<string>): set<string> {
    set u, p | u in units && u in stars && p in stars[u].points :: p
  }

  lemma {:induction false} PointsAreCovered(stars: Stars, units: seq<string>)
    requires forall u :: u in units ==> u in stars
    ensures Set(PointsOf(stars, units)) == Covered(stars, Set(units))
  {
    if |units| > 0 {
      var n := |units| - 1;
      PointsAreCovered(stars, units[..n]);
      assert Set(units) == Set(units[..n]) + {units[n]};
      assert Covered(stars, Set(units)) == Covered(stars, Set(units[..n])) + Set(stars[units[n]].points);
    }
  }

  lemma {:induction false} PointsDoNotRepeat(stars: Stars, ids: set<string>, units: seq<string>)
    requires Splits(stars, ids) && NoRepeats(units) && forall u :: u in units ==> u in stars
    ensures NoRepeats(PointsOf(stars, units))
  {
    if |units| > 0 {
      var n := |units| - 1;
      PointsDoNotRepeat(stars, ids, units[..n]);
      PointsAreCovered(stars, units[..n]);
      var before, last := PointsOf(stars, units[..n]), stars[units[n]].points;
      forall p | p in before ensures p !in last {
        assert p in Covered(stars, Set(units[..n]));
        var u :| u in units[..n] && u in stars && p in stars[u].points;
        assert u != units[n];
      }
      JoinDoesNotRepeat(before, last);
    }
  }

  lemma CoveredApart(stars: Stars, ids: set<string>, a: set<string>, b: set<string>)
    requires Splits(stars, ids) && a !! b
    ensures Covered(stars, a) !! Covered(stars, b)
    ensures Covered(stars, a + b) == Covered(stars, a) + Covered(stars, b)
  {
    forall p | p in Covered(stars, a) ensures p !in Covered(stars, b) {
      var u :| u in a && u in stars && p in stars[u].points;
      forall v | v in b && v in stars ensures p !in stars[v].points {
        assert u != v;
      }
    }
  }

  /** By grade, then by source id. */
  function Younger(byId: map<string, Point>): (string, string) -> bool {
    (a, b) => GradeOf(byId, a) < GradeOf(byId, b)
              || (GradeOf(byId, a) == GradeOf(byId, b) && AtOrBefore(SourceOf(byId, a), SourceOf(byId, b)))
  }

  lemma YoungerOrders(byId: map<string, Point>)
    ensures TotalPreorder(Younger(byId))
  {
    StringsOrdered();
    var le := Younger(byId);
    forall a, b, c | le(a, b) && le(b, c) ensures le(a, c) {
      StringsOrdered();
    }
  }

  /** The points of some stars, sorted: none twice, and exactly those the stars cover. */
  lemma JoinedPoints(byId: map<string, Point>, stars: Stars, ids: set<string>, units: seq<string>, points: seq<string>)
    requires Splits(stars, ids) && NoRepeats(units) && forall u :: u in units ==> u in stars
    requires points == Sorted(PointsOf(stars, units), Younger(byId))
    ensures NoRepeats(points) && Set(points) == Covered(stars, Set(units)) && SortedBy(points, Younger(byId))
  {
    var joined := PointsOf(stars, units);
    PointsDoNotRepeat(stars, ids, units);
    PointsAreCovered(stars, units);
    SortPermutes(joined, Younger(byId));
    SameMembersDoNotRepeat(points, joined);
    YoungerOrders(byId);
    SortOrders(joined, Younger(byId));
  }

  lemma SameMembersAsSet(a: seq<string>, b: set<string>)
    requires multiset(a) == multiset(b)
    ensures NoRepeats(a) && Set(a) == b
  {
    forall i, j | 0 <= i < j < |a| ensures a[i] != a[j] {
      if a[i] == a[j] {
        TwiceCounted(a, i, j);
      }
    }
    forall x ensures x in Set(a) <==> x in b {
      assert x in multiset(a) <==> x in a;
      assert x in multiset(b) <==> x in b;
    }
  }

  // ── What the batches ask for ────────────────────────────────────────────────

  /** The least number of points of a merged star in a nebula of `total` points. */
  function Floor(total: nat): nat {
    if MIN_MERGED_POINTS - 1 < total then MIN_MERGED_POINTS - 1 else total
  }

  function MergeProblem(catalog: Catalog, stars: Stars, nebula: string, offer: MergeOffer, floor: nat): seq<Problem> {
    if Joinable(catalog, stars, offer, floor) then [] else [MergeUnsound(nebula, offer.slug)]
  }

  predicate Joinable(catalog: Catalog, stars: Stars, offer: MergeOffer, floor: nat) {
    && (forall u :: u in offer.units ==> u in stars)
    && floor <= |PointsOf(stars, offer.units)|
    && IsSound(catalog, offer.sound, |PointsOf(stars, offer.units)|)
  }

  function MergeProblems(catalog: Catalog, stars: Stars, nebula: string, offers: seq<MergeOffer>,
                         floor: nat): seq<Problem> {
    if |offers| == 0 then []
    else
      var n := |offers| - 1;
      MergeProblems(catalog, stars, nebula, offers[..n], floor) + MergeProblem(catalog, stars, nebula, offers[n], floor)
  }

  /** The offers of a batch take every star of its nebula exactly once. */
  predicate TakesAll(stars: Stars, batch: MergeBatch) {
    multiset(Joined(UnitLists(batch.offers))) == multiset(UnitsOf(stars, batch.nebula))
  }

  function PointCount(stars: Stars, batch: MergeBatch): nat
    requires TakesAll(stars, batch)
  {
    SameMembersAsSet(Joined(UnitLists(batch.offers)), UnitsOf(stars, batch.nebula));
    assert forall u :: u in Joined(UnitLists(batch.offers)) ==> u in Set(Joined(UnitLists(batch.offers)));
    |PointsOf(stars, Joined(UnitLists(batch.offers)))|
  }

  function BatchProblems(catalog: Catalog, stars: Stars, batch: MergeBatch): seq<Problem> {
    if TakesAll(stars, batch) then
      MergeProblems(catalog, stars, batch.nebula, batch.offers, Floor(PointCount(stars, batch)))
    else [MergeMisplaced(batch.nebula)]
  }

  function AllBatchProblems(catalog: Catalog, stars: Stars, batches: seq<MergeBatch>): seq<Problem> {
    if |batches| == 0 then []
    else
      var n := |batches| - 1;
      AllBatchProblems(catalog, stars, batches[..n]) + BatchProblems(catalog, stars, batches[n])
  }

  lemma {:induction false} NoMergeProblems(catalog: Catalog, stars: Stars, nebula: string, offers: seq<MergeOffer>,
                                           floor: nat)
    ensures MergeProblems(catalog, stars, nebula, offers, floor) == []
            <==> forall k :: 0 <= k < |offers| ==> Joinable(catalog, stars, offers[k], floor)
  {
    if |offers| > 0 {
      NoMergeProblems(catalog, stars, nebula, offers[..|offers| - 1], floor);
    }
  }

  lemma MergeProblemsGrow(catalog: Catalog, stars: Stars, nebula: string, offers: seq<MergeOffer>, floor: nat, k: nat,
                          before: seq<Problem>)
    requires k < |offers|
    ensures before + MergeProblems(catalog, stars, nebula, offers[..k + 1], floor)
         == before + MergeProblems(catalog, stars, nebula, offers[..k], floor)
            + MergeProblem(catalog, stars, nebula, offers[k], floor)
  {
    assert offers[..k + 1][..k] == offers[..k];
  }

  lemma BatchProblemsGrow(catalog: Catalog, stars: Stars, batches: seq<MergeBatch>, k: nat)
    requires k < |batches|
    ensures AllBatchProblems(catalog, stars, batches[..k + 1])
         == AllBatchProblems(catalog, stars, batches[..k]) + BatchProblems(catalog, stars, batches[k])
  {
    assert batches[..k + 1][..k] == batches[..k];
  }

  /** What joining offer `k` of a batch needs. */
  lemma NextMerge(stars: Stars, batch: MergeBatch, k: nat, used: set<string>)
    requires TakesAll(stars, batch) && k < |batch.offers|
    ensures forall u :: u in batch.offers[k].units ==> u in stars && stars[u].topic == batch.nebula
    ensures NoRepeats(batch.offers[k].units)
    ensures UnitsOf(stars, batch.nebula) !! used ==>
              Set(batch.offers[k].units) !! used + Set(Joined(UnitLists(batch.offers)[..k]))
    ensures used + Set(Joined(UnitLists(batch.offers)[..k])) + Set(batch.offers[k].units)
         == used + Set(Joined(UnitLists(batch.offers)[..k + 1]))
  {
    var lists := UnitLists(batch.offers);
    SameMembersAsSet(Joined(lists), UnitsOf(stars, batch.nebula));
    JoinedSplits(lists, k);
    forall u | u in lists[k] ensures u in UnitsOf(stars, batch.nebula) {
      assert u in Set(lists[k]) && u in Set(Joined(lists));
    }
  }

  function NebulaeOf(batches: seq<MergeBatch>): set<string> {
    set k | 0 <= k < |batches| :: batches[k].nebula
  }

  /** The nebulae whose batch takes every star of theirs. */
  function DoneBy(stars: Stars, batches: seq<MergeBatch>): set<string> {
    if |batches| == 0 then {}
    else
      var n := |batches| - 1;
      DoneBy(stars, batches[..n]) + if TakesAll(stars, batches[n]) then {batches[n].nebula} else {}
  }

  /** One batch at most for a nebula. */
  ghost predicate OnePerNebula(batches: seq<MergeBatch>) {
    forall i, j :: 0 <= i < j < |batches| ==> batches[i].nebula != batches[j].nebula
  }

  // ── When the pass raises ────────────────────────────────────────────────────

  /** An offer that passes the checks without a point to take a grade from. */
  predicate IsHollow(catalog: Catalog, stars: Stars, floor: nat, offer: MergeOffer) {
    Joinable(catalog, stars, offer, floor) && PointsOf(stars, offer.units) == []
  }

  ghost predicate SomeHollow(catalog: Catalog, stars: Stars, floor: nat, offers: seq<MergeOffer>) {
    Hits(offers, offer => IsHollow(catalog, stars, floor, offer))
  }

  ghost predicate SomeSound(offers: seq<MergeOffer>) {
    Hits(offers, (offer: MergeOffer) => offer.sound)
  }

  /** A batch for a nebula without stars that offers a sound one all the same. */
  ghost predicate BatchRaises(stars: Stars, batch: MergeBatch) {
    TakesAll(stars, batch) && UnitsOf(stars, batch.nebula) == {} && SomeSound(batch.offers)
  }

  ghost predicate SomeBatchRaises(stars: Stars, batches: seq<MergeBatch>) {
    Hits(batches, batch => BatchRaises(stars, batch))
  }

  ghost predicate NoneEmpty(stars: Stars) {
    forall u :: u in stars ==> stars[u].points != []
  }

  lemma FittingHold(catalog: Catalog, byId: map<string, Point>, stars: Stars)
    ensures AllFit(catalog, byId, stars) ==> NoneEmpty(stars)
  {
  }

  /** Where every star holds a point, only a nebula without stars has a hollow offer. */
  lemma HollowIff(catalog: Catalog, stars: Stars, batch: MergeBatch, offer: MergeOffer)
    requires NoneEmpty(stars) && TakesAll(stars, batch)
    requires forall u :: u in offer.units ==> u in UnitsOf(stars, batch.nebula)
    ensures IsHollow(catalog, stars, Floor(PointCount(stars, batch)), offer)
            <==> UnitsOf(stars, batch.nebula) == {} && offer.sound
  {
    var units := Joined(UnitLists(batch.offers));
    SameMembersAsSet(units, UnitsOf(stars, batch.nebula));
    assert forall u :: u in units ==> u in Set(units);
    HoldsPoints(stars, units);
    NoneIn(units);
    NoneIn(offer.units);
    if u :| u in UnitsOf(stars, batch.nebula) {
      assert u in Set(units);
    }
  }

  lemma NoneIn<T>(s: seq<T>)
    ensures s == [] <==> forall x :: x in s ==> false
  {
    if s != [] {
      assert s[0] in s;
    }
  }

  /** Some stars hold a point, unless they are none. */
  lemma HoldsPoints(stars: Stars, units: seq<string>)
    requires NoneEmpty(stars) && forall u :: u in units ==> u in stars
    ensures units != [] ==> PointsOf(stars, units) != []
  {
    if units != [] {
      var last := units[|units| - 1];
      assert last in units && stars[last].points != [];
    }
  }

  /** A batch has a hollow offer exactly when it raises. */
  lemma SomeHollowIff(catalog: Catalog, stars: Stars, batch: MergeBatch)
    requires NoneEmpty(stars) && TakesAll(stars, batch)
    ensures SomeHollow(catalog, stars, Floor(PointCount(stars, batch)), batch.offers) <==> BatchRaises(stars, batch)
  {
    forall k | 0 <= k < |batch.offers|
      ensures IsHollow(catalog, stars, Floor(PointCount(stars, batch)), batch.offers[k])
              <==> UnitsOf(stars, batch.nebula) == {} && batch.offers[k].sound
    {
      NextMerge(stars, batch, k, {});
      HollowIff(catalog, stars, batch, batch.offers[k]);
    }
  }

  // ── The stars the batches make ──────────────────────────────────────────────

  /** The star that joins some stars of a nebula: their points in order, the first one's subject. */
  function JoinedStar(byId: map<string, Point>, stars: Stars, nebula: string, units: seq<string>): Star
    requires (forall u :: u in units ==> u in stars) && PointsOf(stars, units) != []
  {
    SortPermutes(PointsOf(stars, units), Younger(byId));
    StarOf(byId, nebula, stars[units[0]].subject, Sorted(PointsOf(stars, units), Younger(byId)))
  }

  /** A joined star holds the points of its stars, each as often, by grade and then by source id, points
      alike in both as they came. */
  lemma JoinedStarIsInOrder(byId: map<string, Point>, stars: Stars, nebula: string, units: seq<string>)
    requires (forall u :: u in units ==> u in stars) && PointsOf(stars, units) != []
    ensures var points := JoinedStar(byId, stars, nebula, units).points;
            && multiset(points) == multiset(PointsOf(stars, units))
            && (forall i, j :: 0 <= i < j < |points| ==>
                  NoOlder(PointAt(byId, points[i]), PointAt(byId, points[j])))
            && forall x :: Alike(points, Younger(byId), x) == Alike(PointsOf(stars, units), Younger(byId), x)
  {
    var joined := PointsOf(stars, units);
    var points := Sorted(joined, Younger(byId));
    YoungerOrders(byId);
    SortPermutes(joined, Younger(byId));
    SortOrders(joined, Younger(byId));
    forall x ensures Alike(points, Younger(byId), x) == Alike(joined, Younger(byId), x) {
      SortIsStable(joined, Younger(byId), x);
    }
    forall i, j | 0 <= i < j < |points|
      ensures NoOlder(PointAt(byId, points[i]), PointAt(byId, points[j]))
    {
      assert Younger(byId)(points[i], points[j]);
      YoungerIff(byId, points[i], points[j]);
    }
  }

  /** Of a lower grade, or of the same and not later by its source id. */
  ghost predicate NoOlder(p: Point, q: Point) {
    p.grade < q.grade || (p.grade == q.grade && (p.sourceId == q.sourceId || Precedes(p.sourceId, q.sourceId)))
  }

  lemma YoungerIff(byId: map<string, Point>, a: string, b: string)
    ensures Younger(byId)(a, b) <==> NoOlder(PointAt(byId, a), PointAt(byId, b))
  {
    AtOrBeforeIff(SourceOf(byId, a), SourceOf(byId, b));
  }

  /** The merged stars after an offer: one more when it is joinable and holds a point. */
  function WithMerge(catalog: Catalog, byId: map<string, Point>, stars: Stars, nebula: string, floor: nat,
                     offer: MergeOffer, merged: Stars): Stars {
    if Joinable(catalog, stars, offer, floor) && PointsOf(stars, offer.units) != [] then
      Named(catalog, merged, offer.slug, JoinedStar(byId, stars, nebula, offer.units))
    else merged
  }

  function WithMerges(catalog: Catalog, byId: map<string, Point>, stars: Stars, nebula: string, floor: nat,
                      offers: seq<MergeOffer>, merged: Stars): Stars {
    if |offers| == 0 then merged
    else
      var n := |offers| - 1;
      var before := WithMerges(catalog, byId, stars, nebula, floor, offers[..n], merged);
      WithMerge(catalog, byId, stars, nebula, floor, offers[n], before)
  }

  function WithBatch(catalog: Catalog, byId: map<string, Point>, stars: Stars, batch: MergeBatch,
                     merged: Stars): Stars {
    if TakesAll(stars, batch) then
      WithMerges(catalog, byId, stars, batch.nebula, Floor(PointCount(stars, batch)), batch.offers, merged)
    else merged
  }

  function MergedStars(catalog: Catalog, byId: map<string, Point>, stars: Stars, batches: seq<MergeBatch>): Stars {
    if |batches| == 0 then map[]
    else
      var n := |batches| - 1;
      WithBatch(catalog, byId, stars, batches[n], MergedStars(catalog, byId, stars, batches[..n]))
  }

  /** What the batches make of the stars of the first pass. */
  function MergeOf(catalog: Catalog, byId: map<string, Point>, stars: Stars, batches: seq<MergeBatch>): Merge {
    Merge(MergedStars(catalog, byId, stars, batches), DoneBy(stars, batches), AllBatchProblems(catalog, stars, batches))
  }

  lemma MoreMerges(catalog: Catalog, byId: map<string, Point>, stars: Stars, nebula: string, floor: nat,
                   offers: seq<MergeOffer>, merged: Stars, k: nat)
    requires k < |offers|
    ensures WithMerges(catalog, byId, stars, nebula, floor, offers[..k + 1], merged)
         == WithMerge(catalog, byId, stars, nebula, floor, offers[k],
                      WithMerges(catalog, byId, stars, nebula, floor, offers[..k], merged))
  {
    assert offers[..k + 1][..k] == offers[..k];
  }

  lemma MoreBatches(catalog: Catalog, byId: map<string, Point>, stars: Stars, batches: seq<MergeBatch>, k: nat)
    requires k < |batches|
    ensures MergedStars(catalog, byId, stars, batches[..k + 1])
         == WithBatch(catalog, byId, stars, batches[k], MergedStars(catalog, byId, stars, batches[..k]))
  {
    assert batches[..k + 1][..k] == batches[..k];
  }

  lemma MoreDone(stars: Stars, batches: seq<MergeBatch>, k: nat)
    requires k < |batches|
    ensures DoneBy(stars, batches[..k + 1])
         == DoneBy(stars, batches[..k]) + if TakesAll(stars, batches[k]) then {batches[k].nebula} else {}
  {
    assert batches[..k + 1][..k] == batches[..k];
  }

  // ── The merge pass ──────────────────────────────────────────────────────────

  /** One merged star of a batch. It raises when it joins no star or no point. */
  method MergeStar(catalog: Catalog, byId: map<string, Point>, stars: Stars, nebula: string, floor: nat,
                   offer: MergeOffer, before: Merge) returns (merge: Option<Merge>)
    requires forall u :: u in offer.units ==> u in stars
    ensures merge.None? <==> IsHollow(catalog, stars, floor, offer)
    ensures merge.Some? ==> merge.value.done == before.done
    ensures merge.Some? ==> merge.value.problems == before.problems + MergeProblem(catalog, stars, nebula, offer, floor)
    ensures merge.Some? ==> merge.value.stars == WithMerge(catalog, byId, stars, nebula, floor, offer, before.stars)
  {
    var joined := PointsOf(stars, offer.units);
    if !IsSound(catalog, offer.sound, |joined|) || |joined| < floor {
      return Some(before.(problems := before.problems + [MergeUnsound(nebula, offer.slug)]));
    }
    NoneMore(before.problems);
    var unit := FreshName(BaseName(nebula, offer.slug), before.stars.Keys + catalog.zapUnits);
    if offer.units == [] || joined == [] {
      return None;
    }
    var sorted := Sorted(joined, Younger(byId));
    SortPermutes(joined, Younger(byId));
    var star := Star(nebula, stars[offer.units[0]].subject, sorted, LeastGrade(byId, sorted),
                     GreatestGrade(byId, sorted));
    return Some(before.(stars := before.stars[unit := star]));
  }

  /** The merge of one nebula, when its offers take every star of it exactly once. */
  method MergeNebula(catalog: Catalog, byId: map<string, Point>, stars: Stars, batch: MergeBatch, before: Merge)
    returns (merge: Option<Merge>)
    requires AllFit(catalog, byId, stars)
    ensures merge.None? <==> BatchRaises(stars, batch)
    ensures merge.Some? ==> merge.value.problems == before.problems + BatchProblems(catalog, stars, batch)
    ensures merge.Some? ==> merge.value.done == before.done + if TakesAll(stars, batch) then {batch.nebula} else {}
    ensures merge.Some? ==> merge.value.stars == WithBatch(catalog, byId, stars, batch, before.stars)
  {
    if !TakesAll(stars, batch) {
      return Some(before.(problems := before.problems + [MergeMisplaced(batch.nebula)]));
    }
    FittingHold(catalog, byId, stars);
    SomeHollowIff(catalog, stars, batch);
    merge := MergeOffers(catalog, byId, stars, batch, Floor(PointCount(stars, batch)), before);
    if merge.Some? {
      merge := Some(merge.value.(done := merge.value.done + {batch.nebula}));
    }
  }

  method MergeOffers(catalog: Catalog, byId: map<string, Point>, stars: Stars, batch: MergeBatch, floor: nat,
                     before: Merge)
    returns (merge: Option<Merge>)
    requires TakesAll(stars, batch)
    ensures merge.None? <==> SomeHollow(catalog, stars, floor, batch.offers)
    ensures merge.Some? ==>
              merge.value.problems == before.problems + MergeProblems(catalog, stars, batch.nebula, batch.offers, floor)
    ensures merge.Some? ==> merge.value.done == before.done
    ensures merge.Some? ==>
              merge.value.stars == WithMerges(catalog, byId, stars, batch.nebula, floor, batch.offers, before.stars)
  {
    var nebula, offers := batch.nebula, batch.offers;
    merge := Some(before);
    NoneMore(before.problems);
    for k := 0 to |offers|
      invariant merge.Some? && merge.value.done == before.done
      invariant !SomeHollow(catalog, stars, floor, offers[..k])
      invariant merge.value.problems == before.problems + MergeProblems(catalog, stars, nebula, offers[..k], floor)
      invariant merge.value.stars == WithMerges(catalog, byId, stars, nebula, floor, offers[..k], before.stars)
    {
      NextMerge(stars, batch, k, {});
      NextHit(offers, offer => IsHollow(catalog, stars, floor, offer), k);
      MoreMerges(catalog, byId, stars, nebula, floor, offers, before.stars, k);
      MergeProblemsGrow(catalog, stars, nebula, offers, floor, k, before.problems);
      merge := MergeStar(catalog, byId, stars, nebula, floor, offers[k], merge.value);
      if merge.None? {
        return None;
      }
    }
    assert offers[..|offers|] == offers;
  }

  /** The merges of all batches, one after the other. */
  method MergeAll(catalog: Catalog, byId: map<string, Point>, stars: Stars, batches: seq<MergeBatch>)
    returns (merge: Option<Merge>)
    requires AllFit(catalog, byId, stars)
    ensures merge.None? <==> SomeBatchRaises(stars, batches)
    ensures merge.Some? ==> merge.value == MergeOf(catalog, byId, stars, batches)
  {
    merge := Some(Merge(map[], {}, []));
    for k := 0 to |batches|
      invariant merge.Some? && merge.value == MergeOf(catalog, byId, stars, batches[..k])
      invariant !SomeBatchRaises(stars, batches[..k])
    {
      NextHit(batches, batch => BatchRaises(stars, batch), k);
      MoreBatches(catalog, byId, stars, batches, k);
      MoreDone(stars, batches, k);
      BatchProblemsGrow(catalog, stars, batches, k);
      merge := MergeNebula(catalog, byId, stars, batches[k], merge.value);
      if merge.None? {
        return None;
      }
    }
    assert batches[..|batches|] == batches;
  }

  // ── What the merged stars hold ──────────────────────────────────────────────

  /** Merged stars that fit, hold their points in order, and split the points of the stars joined. */
  ghost predicate Joins(catalog: Catalog, byId: map<string, Point>, stars: Stars, merged: Stars, units: set<string>) {
    && AllFit(catalog, byId, merged)
    && (forall u :: u in merged ==> SortedBy(merged[u].points, Younger(byId)))
    && Splits(merged, Covered(stars, units))
  }

  lemma StarJoins(catalog: Catalog, byId: map<string, Point>, stars: Stars, ids: set<string>, merged: Stars,
                  used: set<string>, nebula: string, floor: nat, offer: MergeOffer)
    requires AllFit(catalog, byId, stars) && Splits(stars, ids) && Joins(catalog, byId, stars, merged, used)
    requires NoRepeats(offer.units) && Set(offer.units) !! used
    requires forall u :: u in offer.units ==> u in stars && stars[u].topic == nebula
    requires Joinable(catalog, stars, offer, floor) && !IsHollow(catalog, stars, floor, offer)
    ensures Joins(catalog, byId, stars, WithMerge(catalog, byId, stars, nebula, floor, offer, merged),
                  used + Set(offer.units))
  {
    var star := JoinedStar(byId, stars, nebula, offer.units);
    JoinedPoints(byId, stars, ids, offer.units, star.points);
    JoinedFits(catalog, byId, stars, nebula, offer.units);
    CoveredApart(stars, ids, used, Set(offer.units));
    var taken := merged.Keys + catalog.zapUnits;
    FreeNameIsFirst(BaseName(nebula, offer.slug), taken);
    StarAdds(catalog, byId, stars, merged, used, Set(offer.units), FreeName(BaseName(nebula, offer.slug), taken, 1),
             star);
  }

  lemma StarAdds(catalog: Catalog, byId: map<string, Point>, stars: Stars, merged: Stars, used: set<string>,
                 units: set<string>, unit: string, star: Star)
    requires Joins(catalog, byId, stars, merged, used) && unit !in merged && Fits(catalog, byId, star)
    requires NoRepeats(star.points) && Set(star.points) == Covered(stars, units)
    requires SortedBy(star.points, Younger(byId))
    requires Covered(stars, used) !! Covered(stars, units)
    requires Covered(stars, used + units) == Covered(stars, used) + Covered(stars, units)
    ensures Joins(catalog, byId, stars, merged[unit := star], used + units)
  {
    StarAdded(merged, Covered(stars, used), unit, star);
  }

  lemma JoinedFits(catalog: Catalog, byId: map<string, Point>, stars: Stars, nebula: string, units: seq<string>)
    requires AllFit(catalog, byId, stars) && forall u :: u in units ==> u in stars && stars[u].topic == nebula
    requires 1 <= |PointsOf(stars, units)| <= catalog.maxPoints
    ensures Fits(catalog, byId, JoinedStar(byId, stars, nebula, units))
  {
    SortPermutes(PointsOf(stars, units), Younger(byId));
    SortMembers(PointsOf(stars, units), Younger(byId));
    PointsKeepNebula(catalog, byId, stars, nebula, units);
    FirstSubject(catalog, byId, stars, units);
  }

  /** The subject of the first star is one of its points'. */
  lemma FirstSubject(catalog: Catalog, byId: map<string, Point>, stars: Stars, units: seq<string>)
    requires |units| > 0 && AllFit(catalog, byId, stars) && forall u :: u in units ==> u in stars
    ensures exists p :: p in PointsOf(stars, units) && p in byId && byId[p].subject == stars[units[0]].subject
  {
    var first := stars[units[0]];
    assert units[0] in units && Fits(catalog, byId, first);
    var p :| p in first.points && p in byId && byId[p].subject == first.subject;
    PointsAreCovered(stars, units);
    assert p in Covered(stars, Set(units));
    assert p in Set(PointsOf(stars, units));
  }

  /** The points of a nebula's stars keep to the nebula, so a star that joins some of them fits. */
  lemma {:induction false} PointsKeepNebula(catalog: Catalog, byId: map<string, Point>, stars: Stars, nebula: string,
                                            units: seq<string>)
    requires AllFit(catalog, byId, stars) && forall u :: u in units ==> u in stars && stars[u].topic == nebula
    ensures forall p :: p in PointsOf(stars, units) ==> p in byId && catalog.topicOf(byId[p].group) == nebula
  {
    if |units| > 0 {
      var n := |units| - 1;
      PointsKeepNebula(catalog, byId, stars, nebula, units[..n]);
      assert units[n] in units;
    }
  }

  /** The stars the first offers of a batch join. */
  function UsedUpTo(batch: MergeBatch, used: set<string>, k: nat): set<string>
    requires k <= |batch.offers|
  {
    used + Set(Joined(UnitLists(batch.offers)[..k]))
  }

  lemma NextOfferJoins(catalog: Catalog, byId: map<string, Point>, stars: Stars, ids: set<string>, merged: Stars,
                       used: set<string>, batch: MergeBatch, k: nat)
    requires AllFit(catalog, byId, stars) && NoneEmpty(stars) && Splits(stars, ids)
    requires TakesAll(stars, batch) && UnitsOf(stars, batch.nebula) !! used && k < |batch.offers|
    requires BatchProblems(catalog, stars, batch) == [] && !BatchRaises(stars, batch)
    requires Joins(catalog, byId, stars, merged, UsedUpTo(batch, used, k))
    ensures Joins(catalog, byId, stars,
                  WithMerge(catalog, byId, stars, batch.nebula, Floor(PointCount(stars, batch)), batch.offers[k],
                            merged),
                  UsedUpTo(batch, used, k + 1))
  {
    NextMerge(stars, batch, k, used);
    NextJoinable(catalog, stars, batch, k);
    StarJoins(catalog, byId, stars, ids, merged, UsedUpTo(batch, used, k), batch.nebula,
              Floor(PointCount(stars, batch)), batch.offers[k]);
  }

  /** What every offer of a batch keeps, all its offers keep. */
  lemma {:induction false} OffersKeep(catalog: Catalog, byId: map<string, Point>, stars: Stars, batch: MergeBatch,
                                      floor: nat, merged: Stars, used: set<string>, k: nat,
                                      kept: (Stars, set<string>) -> bool)
    requires kept(merged, used) && k <= |batch.offers|
    requires forall i: nat, m :: i < |batch.offers| && kept(m, UsedUpTo(batch, used, i)) ==>
               kept(WithMerge(catalog, byId, stars, batch.nebula, floor, batch.offers[i], m),
                    UsedUpTo(batch, used, i + 1))
    ensures kept(WithMerges(catalog, byId, stars, batch.nebula, floor, batch.offers[..k], merged),
                 UsedUpTo(batch, used, k))
  {
    if k == 0 {
      NoOffers(UnitLists(batch.offers), used);
    } else {
      OffersKeep(catalog, byId, stars, batch, floor, merged, used, k - 1, kept);
      MoreMerges(catalog, byId, stars, batch.nebula, floor, batch.offers, merged, k - 1);
    }
  }

  /** The offers of a batch without problems join the stars of its nebula. */
  lemma OffersJoin(catalog: Catalog, byId: map<string, Point>, stars: Stars, ids: set<string>, merged: Stars,
                   used: set<string>, batch: MergeBatch)
    requires AllFit(catalog, byId, stars) && NoneEmpty(stars) && Splits(stars, ids)
    requires TakesAll(stars, batch) && UnitsOf(stars, batch.nebula) !! used
    requires BatchProblems(catalog, stars, batch) == [] && !BatchRaises(stars, batch)
    requires Joins(catalog, byId, stars, merged, used)
    ensures Joins(catalog, byId, stars, WithBatch(catalog, byId, stars, batch, merged),
                  used + UnitsOf(stars, batch.nebula))
  {
    var floor := Floor(PointCount(stars, batch));
    var kept := (m, u) => Joins(catalog, byId, stars, m, u);
    forall i: nat, m | i < |batch.offers| && kept(m, UsedUpTo(batch, used, i))
      ensures kept(WithMerge(catalog, byId, stars, batch.nebula, floor, batch.offers[i], m),
                   UsedUpTo(batch, used, i + 1))
    {
      NextOfferJoins(catalog, byId, stars, ids, m, used, batch, i);
    }
    OffersKeep(catalog, byId, stars, batch, floor, merged, used, |batch.offers|, kept);
    AllUsed(stars, batch, used);
  }

  lemma AllUsed(stars: Stars, batch: MergeBatch, used: set<string>)
    requires TakesAll(stars, batch)
    ensures UsedUpTo(batch, used, |batch.offers|) == used + UnitsOf(stars, batch.nebula)
    ensures batch.offers[..|batch.offers|] == batch.offers
  {
    var lists := UnitLists(batch.offers);
    assert lists[..|lists|] == lists;
    SameMembersAsSet(Joined(lists), UnitsOf(stars, batch.nebula));
  }

  lemma NextJoinable(catalog: Catalog, stars: Stars, batch: MergeBatch, k: nat)
    requires NoneEmpty(stars) && TakesAll(stars, batch) && k < |batch.offers|
    requires BatchProblems(catalog, stars, batch) == [] && !BatchRaises(stars, batch)
    ensures Joinable(catalog, stars, batch.offers[k], Floor(PointCount(stars, batch)))
    ensures !IsHollow(catalog, stars, Floor(PointCount(stars, batch)), batch.offers[k])
  {
    NoMergeProblems(catalog, stars, batch.nebula, batch.offers, Floor(PointCount(stars, batch)));
    SomeHollowIff(catalog, stars, batch);
  }

  /** Every batch takes all stars of its nebula, has no problems and does not raise. */
  ghost predicate AllGood(catalog: Catalog, stars: Stars, batches: seq<MergeBatch>) {
    !Hits(batches, batch => !IsGood(catalog, stars, batch))
  }

  ghost predicate IsGood(catalog: Catalog, stars: Stars, batch: MergeBatch) {
    TakesAll(stars, batch) && BatchProblems(catalog, stars, batch) == [] && !BatchRaises(stars, batch)
  }

  lemma {:induction false} GoodIff(catalog: Catalog, stars: Stars, batches: seq<MergeBatch>)
    ensures AllGood(catalog, stars, batches)
            <==> AllBatchProblems(catalog, stars, batches) == [] && !SomeBatchRaises(stars, batches)
  {
    if |batches| > 0 {
      var n := |batches| - 1;
      GoodIff(catalog, stars, batches[..n]);
      LastGood(catalog, stars, batches);
      NextHit(batches, batch => BatchRaises(stars, batch), n);
      Whole(batches);
      Misplacing(catalog, stars, batches[n]);
    }
  }

  lemma LastGood(catalog: Catalog, stars: Stars, batches: seq<MergeBatch>)
    requires |batches| > 0
    ensures AllGood(catalog, stars, batches)
            <==> AllGood(catalog, stars, batches[..|batches| - 1]) && IsGood(catalog, stars, batches[|batches| - 1])
  {
    NextHit(batches, batch => !IsGood(catalog, stars, batch), |batches| - 1);
    Whole(batches);
  }

  lemma Whole<T>(s: seq<T>)
    requires |s| > 0
    ensures s[..|s| - 1 + 1] == s
  {
  }

  lemma Misplacing(catalog: Catalog, stars: Stars, batch: MergeBatch)
    ensures BatchProblems(catalog, stars, batch) == [] ==> TakesAll(stars, batch)
  {
  }

  lemma {:induction false} GoodAreDone(catalog: Catalog, stars: Stars, batches: seq<MergeBatch>)
    requires AllGood(catalog, stars, batches)
    ensures DoneBy(stars, batches) == NebulaeOf(batches)
  {
    if |batches| > 0 {
      var n := |batches| - 1;
      LastGood(catalog, stars, batches);
      GoodAreDone(catalog, stars, batches[..n]);
      LastNebula(batches);
    }
  }

  lemma LastNebula(batches: seq<MergeBatch>)
    requires |batches| > 0
    ensures NebulaeOf(batches) == NebulaeOf(batches[..|batches| - 1]) + {batches[|batches| - 1].nebula}
  {
    assert batches == batches[..|batches| - 1] + [batches[|batches| - 1]];
  }

  /** The merged stars of batches without problems, one for a nebula. */
  lemma {:induction false} BatchesJoin(catalog: Catalog, byId: map<string, Point>, stars: Stars, ids: set<string>,
                                       batches: seq<MergeBatch>)
    requires AllFit(catalog, byId, stars) && NoneEmpty(stars) && Splits(stars, ids)
    requires OnePerNebula(batches) && AllGood(catalog, stars, batches)
    ensures Joins(catalog, byId, stars, MergedStars(catalog, byId, stars, batches), UnitsIn(stars, NebulaeOf(batches)))
  {
    if |batches| > 0 {
      var n := |batches| - 1;
      var batch, used := batches[n], UnitsIn(stars, NebulaeOf(batches[..n]));
      LastGood(catalog, stars, batches);
      BatchesJoin(catalog, byId, stars, ids, batches[..n]);
      OneMoreNebula(stars, batches, n);
      Whole(batches);
      OffersJoin(catalog, byId, stars, ids, MergedStars(catalog, byId, stars, batches[..n]), used, batch);
    }
  }

  lemma OneMoreNebula(stars: Stars, batches: seq<MergeBatch>, k: nat)
    requires k < |batches|
    ensures UnitsIn(stars, NebulaeOf(batches[..k + 1]))
         == UnitsIn(stars, NebulaeOf(batches[..k])) + UnitsOf(stars, batches[k].nebula)
    ensures OnePerNebula(batches) ==> UnitsOf(stars, batches[k].nebula) !! UnitsIn(stars, NebulaeOf(batches[..k]))
  {
    assert batches[..k + 1] == batches[..k] + [batches[k]];
  }

  // ── How small a merged star may be ──────────────────────────────────────────

  /** The points of some stars are at least those of a part of them. */
  lemma {:induction false} PartHoldsLess(stars: Stars, lists: seq<seq<string>>, k: nat)
    requires k < |lists| && forall u :: u in Joined(lists) ==> u in stars
    requires forall u :: u in lists[k] ==> u in stars
    ensures |PointsOf(stars, lists[k])| <= |PointsOf(stars, Joined(lists))|
  {
    var n := |lists| - 1;
    assert forall u :: u in Joined(lists[..n]) || u in lists[n] ==> u in Joined(lists);
    PointsAppend(stars, Joined(lists[..n]), lists[n]);
    if k < n {
      PartHoldsLess(stars, lists[..n], k);
    }
  }

  lemma {:induction false} PointsAppend(stars: Stars, a: seq<string>, b: seq<string>)
    requires (forall u :: u in a ==> u in stars) && forall u :: u in b ==> u in stars
    ensures forall u :: u in a + b ==> u in stars
    ensures |PointsOf(stars, a + b)| == |PointsOf(stars, a)| + |PointsOf(stars, b)|
  {
    if |b| == 0 {
      assert a + b == a;
    } else {
      PointsAppend(stars, a, b[..|b| - 1]);
      ShorterByOne(a, b);
    }
  }

  /** Every merged star of a batch without problems holds six points or more exactly when its nebula
      does and no offer joins just five. */
  lemma MinimumIff(catalog: Catalog, stars: Stars, batch: MergeBatch)
    requires NoneEmpty(stars) && IsGood(catalog, stars, batch) && UnitsOf(stars, batch.nebula) != {}
    ensures (forall k :: 0 <= k < |batch.offers| ==> Joins6(stars, batch.offers[k]))
            <==> PointCount(stars, batch) >= MIN_MERGED_POINTS
                 && forall k :: 0 <= k < |batch.offers| ==> !Joins5(stars, batch.offers[k])
  {
    var lists := UnitLists(batch.offers);
    SameMembersAsSet(Joined(lists), UnitsOf(stars, batch.nebula));
    forall k | 0 <= k < |batch.offers|
      ensures Joinable(catalog, stars, batch.offers[k], Floor(PointCount(stars, batch)))
      ensures |PointsOf(stars, batch.offers[k].units)| <= PointCount(stars, batch)
    {
      NextMerge(stars, batch, k, {});
      NextJoinable(catalog, stars, batch, k);
      assert forall u :: u in Joined(lists) ==> u in Set(Joined(lists));
      PartHoldsLess(stars, lists, k);
    }
    HasOffers(stars, batch);
  }

  lemma HasOffers(stars: Stars, batch: MergeBatch)
    requires TakesAll(stars, batch) && UnitsOf(stars, batch.nebula) != {}
    ensures batch.offers != []
  {
    SameMembersAsSet(Joined(UnitLists(batch.offers)), UnitsOf(stars, batch.nebula));
  }

  /** And five are accepted, however many points the nebula has. */
  lemma FiveAreAccepted(catalog: Catalog, stars: Stars, offer: MergeOffer, total: nat)
    requires Joins5(stars, offer) && offer.sound && catalog.maxPoints >= 5
    ensures Joinable(catalog, stars, offer, Floor(total))
  {
  }

  predicate Joins6(stars: Stars, offer: MergeOffer) {
    (forall u :: u in offer.units ==> u in stars) && |PointsOf(stars, offer.units)| >= MIN_MERGED_POINTS
  }

  predicate Joins5(stars: Stars, offer: MergeOffer) {
    (forall u :: u in offer.units ==> u in stars) && |PointsOf(stars, offer.units)| == 5
  }

  // ── The names the batches take ──────────────────────────────────────────────

  /** The names after one offer more: the first free one of its nebula and slug. */
  function NameAdded(zapUnits: set<string>, nebula: string, slug: string, names: set<string>): set<string> {
    names + {FreeName(BaseName(nebula, slug), names + zapUnits, 1)}
  }

  function NamesAfter(zapUnits: set<string>, nebula: string, offers: seq<MergeOffer>, names: set<string>): set<string> {
    if |offers| == 0 then names
    else
      var n := |offers| - 1;
      NameAdded(zapUnits, nebula, offers[n].slug, NamesAfter(zapUnits, nebula, offers[..n], names))
  }

  /** The names of the offers of all batches, each the first one free when its turn comes. They are
      a matter of the nebulae and the slugs alone. */
  function NamesMade(zapUnits: set<string>, batches: seq<MergeBatch>): set<string> {
    if |batches| == 0 then {}
    else
      var n := |batches| - 1;
      NamesAfter(zapUnits, batches[n].nebula, batches[n].offers, NamesMade(zapUnits, batches[..n]))
  }

  lemma {:induction false} OfferNames(catalog: Catalog, byId: map<string, Point>, stars: Stars, batch: MergeBatch,
                                      merged: Stars, k: nat)
    requires NoneEmpty(stars) && IsGood(catalog, stars, batch) && k <= |batch.offers|
    ensures WithMerges(catalog, byId, stars, batch.nebula, Floor(PointCount(stars, batch)), batch.offers[..k],
                       merged).Keys
         == NamesAfter(catalog.zapUnits, batch.nebula, batch.offers[..k], merged.Keys)
  {
    if k > 0 {
      OfferNames(catalog, byId, stars, batch, merged, k - 1);
      NextJoinable(catalog, stars, batch, k - 1);
      var floor := Floor(PointCount(stars, batch));
      MoreMerges(catalog, byId, stars, batch.nebula, floor, batch.offers, merged, k - 1);
      MoreNames(catalog.zapUnits, batch.nebula, batch.offers, merged.Keys, k - 1);
      OfferName(catalog, byId, stars, batch.nebula, floor, batch.offers[k - 1],
                WithMerges(catalog, byId, stars, batch.nebula, floor, batch.offers[..k - 1], merged));
    }
  }

  lemma OfferName(catalog: Catalog, byId: map<string, Point>, stars: Stars, nebula: string, floor: nat,
                  offer: MergeOffer, merged: Stars)
    requires Joinable(catalog, stars, offer, floor) && !IsHollow(catalog, stars, floor, offer)
    ensures WithMerge(catalog, byId, stars, nebula, floor, offer, merged).Keys
         == NameAdded(catalog.zapUnits, nebula, offer.slug, merged.Keys)
  {
  }

  lemma MoreNames(zapUnits: set<string>, nebula: string, offers: seq<MergeOffer>, names: set<string>, k: nat)
    requires k < |offers|
    ensures NamesAfter(zapUnits, nebula, offers[..k + 1], names)
         == NameAdded(zapUnits, nebula, offers[k].slug, NamesAfter(zapUnits, nebula, offers[..k], names))
  {
    assert offers[..k + 1][..k] == offers[..k];
  }

  /** Batches without problems make stars of exactly these names. */
  lemma {:induction false} MergedNames(catalog: Catalog, byId: map<string, Point>, stars: Stars,
                                       batches: seq<MergeBatch>)
    requires NoneEmpty(stars) && AllGood(catalog, stars, batches)
    ensures MergedStars(catalog, byId, stars, batches).Keys == NamesMade(catalog.zapUnits, batches)
  {
    if |batches| > 0 {
      var n := |batches| - 1;
      LastGood(catalog, stars, batches);
      MergedNames(catalog, byId, stars, batches[..n]);
      OfferNames(catalog, byId, stars, batches[n], MergedStars(catalog, byId, stars, batches[..n]),
                 |batches[n].offers|);
      assert batches[n].offers[..|batches[n].offers|] == batches[n].offers;
    }
  }

  // ── The stars after the merge ───────────────────────────────────────────────

  function UnitsIn(stars: Stars, nebulae: set<string>): set<string> {
    set u | u in stars && stars[u].topic in nebulae
  }

  /** A star of a nebula without a merge is kept, whatever it overwrites. */
  function Carried(stars: Stars, merge: Merge): Stars {
    merge.stars + map u | u in stars && stars[u].topic !in merge.done :: stars[u]
  }

  /** The merged stars that a kept star overwrites. */
  function Overwritten(stars: Stars, merge: Merge): set<string> {
    set u | u in stars && stars[u].topic !in merge.done && u in merge.stars
  }

  lemma KeptApart(stars: Stars, ids: set<string>, done: set<string>)
    requires Splits(stars, ids)
    ensures forall u, p :: u in stars && stars[u].topic !in done && p in stars[u].points ==>
              p !in Covered(stars, UnitsIn(stars, done))
  {
    forall u, p | u in stars && stars[u].topic !in done && p in stars[u].points
      ensures p !in Covered(stars, UnitsIn(stars, done))
    {
      forall v | v in UnitsIn(stars, done) ensures p !in stars[v].points {
        assert u != v;
      }
    }
  }

  /** The stars after the merge split the points exactly when no kept star overwrites a merged one. */
  lemma CarriedSplitsIff(stars: Stars, ids: set<string>, merge: Merge)
    requires Splits(stars, ids) && NoneEmpty(merge.stars)
    requires Splits(merge.stars, Covered(stars, UnitsIn(stars, merge.done)))
    ensures Splits(Carried(stars, merge), ids) <==> Overwritten(stars, merge) == {}
  {
    var all, covered := Carried(stars, merge), Covered(stars, UnitsIn(stars, merge.done));
    KeptApart(stars, ids, merge.done);
    if Overwritten(stars, merge) == {} {
      forall p | p in ids ensures Held(all, p) {
        var u :| u in stars && p in stars[u].points;
        if stars[u].topic in merge.done {
          assert p in covered;
          var v :| v in merge.stars && p in merge.stars[v].points;
          assert v !in Overwritten(stars, merge) && all[v] == merge.stars[v];
        } else {
          assert all[u] == stars[u];
        }
      }
      forall u, p | u in all && p in all[u].points ensures p in ids {
        if u in merge.stars && all[u] == merge.stars[u] {
          assert p in covered;
        }
      }
      CarriedDisjoint(stars, ids, merge);
    } else {
      var u :| u in Overwritten(stars, merge);
      var p := merge.stars[u].points[0];
      assert p in merge.stars[u].points && p in covered;
      LostPoint(stars, ids, merge, u, p);
    }
  }

  /** No point is in two stars, whatever is overwritten. */
  lemma CarriedDisjoint(stars: Stars, ids: set<string>, merge: Merge)
    requires Splits(stars, ids)
    requires Splits(merge.stars, Covered(stars, UnitsIn(stars, merge.done)))
    ensures Disjoint(Carried(stars, merge))
  {
    var all := Carried(stars, merge);
    KeptApart(stars, ids, merge.done);
    forall u, v, p | u in stars && stars[u].topic !in merge.done && v in merge.stars && p in stars[u].points
      ensures p !in merge.stars[v].points
    {
      assert p !in Covered(stars, UnitsIn(stars, merge.done));
    }
    forall u | u in all
      ensures all[u] == if u in stars && stars[u].topic !in merge.done then stars[u] else merge.stars[u]
    {
    }
  }

  /** A point of an overwritten star is in no star any more. */
  lemma LostPoint(stars: Stars, ids: set<string>, merge: Merge, lost: string, p: string)
    requires Splits(stars, ids)
    requires Splits(merge.stars, Covered(stars, UnitsIn(stars, merge.done)))
    requires lost in Overwritten(stars, merge) && p in merge.stars[lost].points
    ensures !Held(Carried(stars, merge), p) && p in ids
  {
    var all := Carried(stars, merge);
    assert p in Covered(stars, UnitsIn(stars, merge.done));
    KeptApart(stars, ids, merge.done);
    forall u | u in all ensures p !in all[u].points {
      if u in stars && stars[u].topic !in merge.done {
        assert all[u] == stars[u];
      } else {
        assert u != lost;
      }
    }
  }

  /** A kept star takes a name the batches make. */
  ghost predicate Clashes(catalog: Catalog, stars: Stars, batches: seq<MergeBatch>) {
    exists u :: u in stars && stars[u].topic !in NebulaeOf(batches) && u in NamesMade(catalog.zapUnits, batches)
  }

  /** With one batch at most for a nebula and no problems, the stars after the merge split the points
      exactly when no star of a nebula without a batch has one of the names the batches make. */
  lemma MergeSplitsIff(catalog: Catalog, byId: map<string, Point>, stars: Stars, ids: set<string>,
                       batches: seq<MergeBatch>)
    requires AllFit(catalog, byId, stars) && Splits(stars, ids) && OnePerNebula(batches)
    requires AllBatchProblems(catalog, stars, batches) == [] && !SomeBatchRaises(stars, batches)
    ensures Splits(Carried(stars, MergeOf(catalog, byId, stars, batches)), ids) <==> !Clashes(catalog, stars, batches)
    ensures AllFit(catalog, byId, Carried(stars, MergeOf(catalog, byId, stars, batches)))
  {
    GoodIff(catalog, stars, batches);
    GoodAreDone(catalog, stars, batches);
    FittingHold(catalog, byId, stars);
    BatchesJoin(catalog, byId, stars, ids, batches);
    MergedNames(catalog, byId, stars, batches);
    var merge := MergeOf(catalog, byId, stars, batches);
    FittingHold(catalog, byId, merge.stars);
    CarriedSplitsIff(stars, ids, merge);
    ClashesIff(catalog, stars, batches, merge);
    CarriedFits(catalog, byId, stars, merge);
  }

  lemma ClashesIff(catalog: Catalog, stars: Stars, batches: seq<MergeBatch>, merge: Merge)
    requires merge.done == NebulaeOf(batches) && merge.stars.Keys == NamesMade(catalog.zapUnits, batches)
    ensures Overwritten(stars, merge) == {} <==> !Clashes(catalog, stars, batches)
  {
    if u :| u in stars && stars[u].topic !in NebulaeOf(batches) && u in NamesMade(catalog.zapUnits, batches) {
      assert u in Overwritten(stars, merge);
    }
    if u :| u in Overwritten(stars, merge) {
      assert u in stars && stars[u].topic !in NebulaeOf(batches) && u in NamesMade(catalog.zapUnits, batches);
    }
  }

  lemma CarriedFits(catalog: Catalog, byId: map<string, Point>, stars: Stars, merge: Merge)
    requires AllFit(catalog, byId, stars) && AllFit(catalog, byId, merge.stars)
    ensures AllFit(catalog, byId, Carried(stars, merge))
  {
    var all := Carried(stars, merge);
    forall u | u in all ensures Fits(catalog, byId, all[u]) {
      assert (u in stars && all[u] == stars[u]) || (u in merge.stars && all[u] == merge.stars[u]);
    }
  }

  /** Where every point is, read off the stars; the order of the stars decides only when two hold
      the same point. */
  method Locate(stars: Stars) returns (pointStar: PointStar)
    ensures Agrees(stars, pointStar, Covered(stars, stars.Keys))
  {
    pointStar := map[];
    var pending := stars.Keys;
    while pending != {}
      invariant pending <= stars.Keys
      invariant Agrees(stars, pointStar, Covered(stars, stars.Keys - pending))
    {
      var unit :| unit in pending;
      var points := stars[unit].points;
      assert Covered(stars, stars.Keys - (pending - {unit})) == Covered(stars, stars.Keys - pending) + Set(points);
      pointStar := Assigned(pointStar, points, unit);
      pending := pending - {unit};
    }
    assert stars.Keys - pending == stars.Keys;
  }

  /** The merge pass: the merged stars and the stars of the other nebulae. */
  method ApplyMerges(catalog: Catalog, byId: map<string, Point>, stars: Stars, batches: seq<MergeBatch>,
                     ghost ids: set<string>)
    returns (draft: Option<Draft>)
    requires AllFit(catalog, byId, stars) && Splits(stars, ids)
    ensures draft.None? <==> SomeBatchRaises(stars, batches)
    ensures draft.Some? ==> draft.value.stars == Carried(stars, MergeOf(catalog, byId, stars, batches))
    ensures draft.Some? ==> draft.value.problems == AllBatchProblems(catalog, stars, batches)
    ensures draft.Some? ==>
              Agrees(draft.value.stars, draft.value.pointStar, Covered(draft.value.stars, draft.value.stars.Keys))
    ensures draft.Some? && draft.value.problems == [] && OnePerNebula(batches) ==>
              (Splits(draft.value.stars, ids) <==> !Clashes(catalog, stars, batches))
    ensures draft.Some? && Splits(draft.value.stars, ids) ==> Agrees(draft.value.stars, draft.value.pointStar, ids)
    ensures draft.Some? && draft.value.problems == [] && OnePerNebula(batches) ==>
              AllFit(catalog, byId, draft.value.stars)
  {
    var merging := MergeAll(catalog, byId, stars, batches);
    if merging.None? {
      return None;
    }
    var merge := merging.value;
    if merge.problems == [] && OnePerNebula(batches) {
      MergeSplitsIff(catalog, byId, stars, ids, batches);
    }
    var all := Carried(stars, merge);
    var pointStar := Locate(all);
    CoveredWhenSplit(all, ids);
    draft := Some(Draft(all, pointStar, merge.problems));
  }

  lemma CoveredWhenSplit(stars: Stars, ids: set<string>)
    ensures Splits(stars, ids) ==> Covered(stars, stars.Keys) == ids
  {
    if Splits(stars, ids) {
      CoveredByAll(stars, ids);
    }
  }

  lemma CoveredByAll(stars: Stars, ids: set<string>)
    requires Splits(stars, ids)
    ensures Covered(stars, stars.Keys) == ids
  {
    forall p | p in ids ensures p in Covered(stars, stars.Keys) {
      assert Held(stars, p);
    }
  }

  /** The stars of both passes. */
  function AllStars(catalog: Catalog, points: seq<Point>, offers: seq<Offer>, batches: seq<MergeBatch>): Stars {
    var first := FirstStars(catalog, points, offers);
    Carried(first, MergeOf(catalog, ById(points), first, batches))
  }

  lemma NoBatches(catalog: Catalog, byId: map<string, Point>, stars: Stars)
    ensures Carried(stars, MergeOf(catalog, byId, stars, [])) == stars
    ensures !SomeBatchRaises(stars, []) && !Clashes(catalog, stars, [])
  {
  }

  /** Both passes: the stars of the groups, merged when there are merge batches. */
  method StructureAndMerge(catalog: Catalog, points: seq<Point>, exercises: seq<Exercise>, types: map<string, string>,
                           offers: seq<Offer>, batches: seq<MergeBatch>)
    returns (draft: Option<Draft>)
    requires DistinctIds(points)
    ensures draft.None? <==> SomeRaises(catalog, points, offers, Groups(points))
                             || SomeStray(ById(points), exercises)
                             || SomeBatchRaises(FirstStars(catalog, points, offers), batches)
    ensures draft.Some? ==> draft.value.stars == AllStars(catalog, points, offers, batches)
    ensures draft.Some? ==>
              draft.value.problems == StructureProblems(catalog, points, offers, Groups(points))
                                      + TypeProblems(catalog, ById(points), types, exercises)
                                      + AllBatchProblems(catalog, FirstStars(catalog, points, offers), batches)
    ensures draft.Some? && draft.value.problems == [] && OnePerNebula(batches) ==>
              (Splits(draft.value.stars, Set(Ids(points)))
               <==> !Clashes(catalog, FirstStars(catalog, points, offers), batches))
    ensures draft.Some? && draft.value.problems == [] && Splits(draft.value.stars, Set(Ids(points))) ==>
              Agrees(draft.value.stars, draft.value.pointStar, Set(Ids(points)))
    ensures draft.Some? && draft.value.problems == [] && OnePerNebula(batches) ==>
              AllFit(catalog, ById(points), draft.value.stars)
  {
    draft := Structure(catalog, points, offers);
    if draft.None? {
      return None;
    }
    var mistyped := CheckTypes(catalog, ById(points), types, exercises);
    if mistyped.None? {
      return None;
    }
    var first, problems := draft.value.stars, draft.value.problems + mistyped.value;
    if batches == [] {
      NoBatches(catalog, ById(points), first);
      NoneMore(problems);
      draft := Some(draft.value.(problems := problems));
    } else {
      draft := ApplyMerges(catalog, ById(points), first, batches, draft.value.pointStar.Keys);
      if draft.Some? {
        draft := Some(draft.value.(problems := problems + draft.value.problems));
      }
    }
  }

  // ── A merged star overwritten ───────────────────────────────────────────────

  function ExampleCatalog(): Catalog {
    Catalog(group => group, {}, 12, subject => [])
  }

  function ExamplePoints(): seq<Point> {
    [Point("p", "m", "a", 1, "p"), Point("q", "m", "a-b", 1, "q")]
  }

  function ExampleOffers(): seq<Offer> {
    [Offer("a", "x", ["p"], true), Offer("a-b", "y", ["q"], true)]
  }

  function ExampleBatches(): seq<MergeBatch> {
    [MergeBatch("a", [MergeOffer("b-y", ["a-x"], true)])]
  }

  function ExampleStars(): Stars {
    map["a-x" := Star("a", "m", ["p"], 1, 1), "a-b-y" := Star("a-b", "m", ["q"], 1, 1)]
  }

  lemma ExampleGroups()
    ensures Groups(ExamplePoints()) == ["a", "a-b"]
    ensures Members(ExamplePoints(), "a") == ["p"] && Members(ExamplePoints(), "a-b") == ["q"]
    ensures OffersOf(ExampleOffers(), "a") == [ExampleOffers()[0]]
    ensures OffersOf(ExampleOffers(), "a-b") == [ExampleOffers()[1]]
  {
    var points, offers := ExamplePoints(), ExampleOffers();
    assert points[..1] == [points[0]] && points[..1][..0] == [];
    assert offers[..1] == [offers[0]] && offers[..1][..0] == [];
    assert "a" != "a-b";
  }

  lemma ExampleOffered(group: string)
    requires group == "a" || group == "a-b"
    ensures WellOffered(ExampleCatalog(), ExamplePoints(), ExampleOffers(), group)
    ensures !Raises(ExampleCatalog(), ExamplePoints(), ExampleOffers(), group)
  {
    ExampleGroups();
    OneOffer(ExampleOffers()[0]);
    OneOffer(ExampleOffers()[1]);
  }

  lemma ExampleNames()
    ensures BaseName("a", "x") == "a-x" && BaseName("a-b", "y") == "a-b-y" && BaseName("a", "b-y") == "a-b-y"
    ensures "a-x" != "a-b-y" && "a" != "a-b"
  {
    assert |"a-b-y"| != |"a-x"|;
  }

  lemma ExampleFirst()
    ensures FirstStars(ExampleCatalog(), ExamplePoints(), ExampleOffers()) == ExampleStars()
  {
    var catalog, points, offers := ExampleCatalog(), ExamplePoints(), ExampleOffers();
    var groups := ["a", "a-b"];
    ExampleGroups();
    ExampleStarA();
    ExampleOffered("a-b");
    MoreGroups(catalog, points, offers, groups, 1);
    TwoGroups();
    ExampleNames();
    ExampleById();
    OneStar(catalog, ById(points), "a-b", offers[1], map["a-x" := ExampleStars()["a-x"]]);
  }

  lemma TwoGroups()
    ensures ["a", "a-b"][..1] == ["a"] && ["a", "a-b"][..2] == ["a", "a-b"]
  {
  }

  lemma ExampleStarA()
    ensures StarsOf(ExampleCatalog(), ExamplePoints(), ExampleOffers(), ["a"]) == map["a-x" := ExampleStars()["a-x"]]
  {
    var catalog, points, offers := ExampleCatalog(), ExamplePoints(), ExampleOffers();
    ExampleGroups();
    ExampleOffered("a");
    MoreGroups(catalog, points, offers, ["a"], 0);
    assert ["a"][..1] == ["a"] && ["a"][..0] == [];
    ExampleNames();
    ExampleById();
    OneStar(catalog, ById(points), "a", offers[0], map[]);
  }

  lemma ExampleById()
    ensures ById(ExamplePoints()) == map["p" := ExamplePoints()[0], "q" := ExamplePoints()[1]]
  {
    var points := ExamplePoints();
    assert points[..1] == [points[0]] && points[..1][..0] == [];
  }

  lemma OneOffer(offer: Offer)
    ensures Joined(Placements([offer])) == offer.points
  {
    assert Placements([offer])[..0] == [];
  }

  /** The only offer of a group, of one point, under a name that is free at once. */
  lemma OneStar(catalog: Catalog, byId: map<string, Point>, group: string, offer: Offer, stars: Stars)
    requires IsSound(catalog, offer.sound, |offer.points|) && |offer.points| == 1
    requires BaseName(catalog.topicOf(group), offer.slug) !in stars.Keys + catalog.zapUnits
    ensures WithOffers(catalog, byId, group, [offer], stars)
         == var point := PointAt(byId, offer.points[0]);
            var star := Star(catalog.topicOf(group), point.subject, offer.points, point.grade, point.grade);
            stars[BaseName(catalog.topicOf(group), offer.slug) := star]
  {
    assert [offer][..0] == [];
  }

  lemma ExampleTaken()
    ensures TakesAll(ExampleStars(), ExampleBatches()[0]) && UnitsOf(ExampleStars(), "a") == {"a-x"}
    ensures PointsOf(ExampleStars(), ["a-x"]) == ["p"] && PointCount(ExampleStars(), ExampleBatches()[0]) == 1
  {
    var stars, offer := ExampleStars(), ExampleBatches()[0].offers[0];
    ExampleNames();
    assert stars["a-x"].points == ["p"] && stars["a-b-y"].topic == "a-b";
    assert UnitsOf(stars, "a") == {"a-x"};
    assert UnitLists([offer])[..0] == [] && ["a-x"][..0] == [];
    assert Joined(UnitLists([offer])) == ["a-x"];
    assert PointsOf(stars, ["a-x"]) == [] + stars["a-x"].points;
  }

  lemma ExampleAsks()
    ensures AllBatchProblems(ExampleCatalog(), ExampleStars(), ExampleBatches()) == []
    ensures !SomeBatchRaises(ExampleStars(), ExampleBatches()) && OnePerNebula(ExampleBatches())
  {
    var stars, batches, catalog := ExampleStars(), ExampleBatches(), ExampleCatalog();
    var batch := batches[0];
    ExampleTaken();
    assert batches[..0] == [] && batch.offers[..0] == [];
    assert Joinable(catalog, stars, batch.offers[0], 1);
    assert MergeProblems(catalog, stars, "a", batch.offers, 1) == [];
    assert BatchProblems(catalog, stars, batch) == [];
    assert !BatchRaises(stars, batch) by {
      assert "a-x" in UnitsOf(stars, "a");
    }
  }

  lemma ExampleSplits()
    ensures Splits(ExampleStars(), {"p", "q"})
  {
    var stars := ExampleStars();
    assert "p" in stars["a-x"].points && "q" in stars["a-b-y"].points;
    assert Held(stars, "p") && Held(stars, "q");
  }

  lemma ExampleFits()
    ensures AllFit(ExampleCatalog(), ById(ExamplePoints()), ExampleStars())
  {
    ExampleById();
    ExampleFitsAt("a-x", "p");
    ExampleFitsAt("a-b-y", "q");
  }

  lemma ExampleFitsAt(unit: string, p: string)
    requires (unit == "a-x" && p == "p") || (unit == "a-b-y" && p == "q")
    ensures unit in ExampleStars() && Fits(ExampleCatalog(), ById(ExamplePoints()), ExampleStars()[unit])
  {
    ExampleById();
    assert p in ExampleStars()[unit].points;
  }

  lemma ExampleClashes()
    ensures Clashes(ExampleCatalog(), ExampleStars(), ExampleBatches())
  {
    var batches := ExampleBatches();
    var offers := batches[0].offers;
    assert batches[..0] == [] && offers[..0] == [];
    ExampleNames();
    assert NamesMade({}, batches) == NameAdded({}, "a", "b-y", {});
    assert "a-b-y" in NamesMade({}, batches);
    assert "a-b" != "a" && "a-b" !in NebulaeOf(batches);
    assert ExampleStars()["a-b-y"].topic == "a-b";
  }

  lemma ExampleIsClean()
    ensures StructureProblems(ExampleCatalog(), ExamplePoints(), ExampleOffers(), ["a", "a-b"]) == []
    ensures !SomeRaises(ExampleCatalog(), ExamplePoints(), ExampleOffers(), ["a", "a-b"])
  {
    var groups := ["a", "a-b"];
    forall g | g in groups
      ensures WellOffered(ExampleCatalog(), ExamplePoints(), ExampleOffers(), g)
      ensures !Raises(ExampleCatalog(), ExamplePoints(), ExampleOffers(), g)
    {
      ExampleOffered(g);
    }
    NoStructureProblems(ExampleCatalog(), ExamplePoints(), ExampleOffers(), groups);
  }

  lemma ExampleLoses()
    ensures !Splits(Carried(ExampleStars(),
                            MergeOf(ExampleCatalog(), ById(ExamplePoints()), ExampleStars(), ExampleBatches())),
                    {"p", "q"})
  {
    ExampleAsks();
    ExampleSplits();
    ExampleFits();
    ExampleClashes();
    MergeSplitsIff(ExampleCatalog(), ById(ExamplePoints()), ExampleStars(), {"p", "q"}, ExampleBatches());
  }

  /** Two nebulae whose names run into each other's slugs: the merged star `b-y` of nebula `a` and the
      kept star `y` of nebula `a-b` have the same name, and the point of the merged one is lost,
      though nothing is reported. */
  lemma MergedStarLost()
    ensures StructureProblems(ExampleCatalog(), ExamplePoints(), ExampleOffers(), Groups(ExamplePoints())) == []
    ensures !SomeRaises(ExampleCatalog(), ExamplePoints(), ExampleOffers(), Groups(ExamplePoints()))
    ensures var first := FirstStars(ExampleCatalog(), ExamplePoints(), ExampleOffers());
            && AllBatchProblems(ExampleCatalog(), first, ExampleBatches()) == []
            && !SomeBatchRaises(first, ExampleBatches())
            && Splits(first, {"p", "q"})
    ensures !Splits(AllStars(ExampleCatalog(), ExamplePoints(), ExampleOffers(), ExampleBatches()), {"p", "q"})
  {
    ExampleGroups();
    ExampleFirst();
    ExampleIsClean();
    ExampleAsks();
    ExampleSplits();
    ExampleLoses();
  }
}
