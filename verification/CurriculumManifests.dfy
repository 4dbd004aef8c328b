/** The practice sets of `scripts/knowledge_base_import.py`: every exercise filed under its star and
    question type, layered, staged and cut. The ZAP exercises are not part of this model. */
module CurriculumManifests {
  import opened Lists
  import opened Sorting
  import opened Counting
  import Graphs
  import opened CurriculumGraph
  import opened CurriculumLayers
  import opened CurriculumStages
  import opened CurriculumWalk
  import opened CurriculumStructure
  import opened CurriculumMerge

  /** What structuring built: the stars in the order they are written, where every point is, and
      the question type of every exercise. */
  datatype Built = Built(stars: Stars, units: seq<string>, pointStar: PointStar, types: map<string, string>)

  type Key = (string, string)

  ghost predicate Known(built: Built, exercises: seq<Exercise>) {
    forall e :: e in exercises ==> e.point in built.pointStar && e.id in built.types
  }

  /** The star and the question type an exercise is filed under. */
  function KeyOf(built: Built, e: Exercise): Key
    requires e.point in built.pointStar && e.id in built.types
  {
    (built.pointStar[e.point], built.types[e.id])
  }

  predicate IsFiledUnder(built: Built, e: Exercise, key: Key) {
    !e.tooLong && e.point in built.pointStar && e.id in built.types && KeyOf(built, e) == key
  }

  /** The exercises filed under a star and a question type, in order. */
  function Filed(built: Built, exercises: seq<Exercise>, key: Key): seq<Exercise> {
    if |exercises| == 0 then []
    else
      var n := |exercises| - 1;
      Filed(built, exercises[..n], key) + if IsFiledUnder(built, exercises[n], key) then [exercises[n]] else []
  }

  function Dropped(exercises: seq<Exercise>): seq<Exercise> {
    if |exercises| == 0 then []
    else
      var n := |exercises| - 1;
      Dropped(exercises[..n]) + if exercises[n].tooLong then [exercises[n]] else []
  }

  function Kept(exercises: seq<Exercise>): seq<Exercise> {
    if |exercises| == 0 then []
    else
      var n := |exercises| - 1;
      Kept(exercises[..n]) + if !exercises[n].tooLong then [exercises[n]] else []
  }

  /** The exercises of a star and a question type are picked in order. */
  lemma {:induction false} FiledPick(built: Built, exercises: seq<Exercise>, key: Key)
    ensures Picks(Filed(built, exercises, key), exercises, e => IsFiledUnder(built, e, key))
  {
    if |exercises| == 0 {
      PicksNone<Exercise>(e => IsFiledUnder(built, e, key));
    } else {
      FiledPick(built, exercises[..|exercises| - 1], key);
      PicksOneMore(Filed(built, exercises[..|exercises| - 1], key), exercises, e => IsFiledUnder(built, e, key));
    }
  }

  /** The skipped exercises are the ones too long, in order. */
  lemma {:induction false} DroppedPick(exercises: seq<Exercise>)
    ensures Picks(Dropped(exercises), exercises, (e: Exercise) => e.tooLong)
  {
    if |exercises| == 0 {
      PicksNone<Exercise>((e: Exercise) => e.tooLong);
    } else {
      DroppedPick(exercises[..|exercises| - 1]);
      PicksOneMore(Dropped(exercises[..|exercises| - 1]), exercises, (e: Exercise) => e.tooLong);
    }
  }

  function SourceIds(exercises: seq<Exercise>): (ids: seq<string>)
    ensures |ids| == |exercises|
  {
    seq(|exercises|, k requires 0 <= k < |exercises| => exercises[k].sourceId)
  }

  function At(bySet: map<Key, seq<Exercise>>, key: Key): seq<Exercise> {
    if key in bySet then bySet[key] else []
  }

  lemma {:induction false} FiledCounts(built: Built, exercises: seq<Exercise>, key: Key, e: Exercise)
    ensures Count(Filed(built, exercises, key), e)
         == if IsFiledUnder(built, e, key) then Count(Kept(exercises), e) else 0
  {
    if |exercises| > 0 {
      var n := |exercises| - 1;
      FiledCounts(built, exercises[..n], key, e);
      CountOneMore(Filed(built, exercises[..n], key), IsFiledUnder(built, exercises[n], key), exercises[n], e);
      CountOneMore(Kept(exercises[..n]), !exercises[n].tooLong, exercises[n], e);
    }
  }

  /** An exercise is dropped or kept, and an exercise of the input is in one of the two once. */
  lemma DroppedOrKept(exercises: seq<Exercise>)
    ensures multiset(Dropped(exercises)) + multiset(Kept(exercises)) == multiset(exercises)
    ensures forall e :: e in Kept(exercises) ==> e in exercises && !e.tooLong
  {
    var both := Dropped(exercises) + Kept(exercises);
    forall e ensures Count(both, e) == Count(exercises, e) && (e in Kept(exercises) ==> e in exercises && !e.tooLong) {
      CountAppends(Dropped(exercises), Kept(exercises), e);
      DroppedCounts(exercises, e);
      KeptCounts(exercises, e);
      CountedIsIn(Kept(exercises), e);
      CountedIsIn(exercises, e);
    }
    EqualCounts(both, exercises);
  }

  lemma {:induction false} DroppedCounts(exercises: seq<Exercise>, e: Exercise)
    ensures Count(Dropped(exercises), e) == if e.tooLong then Count(exercises, e) else 0
  {
    if |exercises| > 0 {
      var n := |exercises| - 1;
      DroppedCounts(exercises[..n], e);
      CountOneMore(Dropped(exercises[..n]), exercises[n].tooLong, exercises[n], e);
    }
  }

  lemma {:induction false} KeptCounts(exercises: seq<Exercise>, e: Exercise)
    ensures Count(Kept(exercises), e) == if !e.tooLong then Count(exercises, e) else 0
  {
    if |exercises| > 0 {
      var n := |exercises| - 1;
      KeptCounts(exercises[..n], e);
      CountOneMore(Kept(exercises[..n]), !exercises[n].tooLong, exercises[n], e);
    }
  }

  /** The first loop: an exercise with a text too long is skipped, every other one is filed. */
  method FileExercises(built: Built, exercises: seq<Exercise>, already: seq<string>)
    returns (bySet: map<Key, seq<Exercise>>, skipped: seq<string>)
    requires Known(built, exercises)
    ensures skipped == already + SourceIds(Dropped(exercises))
    ensures forall key :: At(bySet, key) == Filed(built, exercises, key)
  {
    bySet, skipped := map[], already;
    for n := 0 to |exercises|
      invariant skipped == already + SourceIds(Dropped(exercises[..n]))
      invariant forall key :: At(bySet, key) == Filed(built, exercises[..n], key)
    {
      var e := exercises[n];
      assert exercises[..n + 1][..n] == exercises[..n];
      if e.tooLong {
        skipped := skipped + [e.sourceId];
      } else {
        var key := KeyOf(built, e);
        bySet := bySet[key := At(bySet, key) + [e]];
      }
    }
    assert exercises[..|exercises|] == exercises;
  }

  // ── One question type of one star ───────────────────────────────────────────

  type Points = map<string, Point>

  /** By the point's grade, then its source id, then the exercise's number. */
  function InOrderOf(points: Points): (Exercise, Exercise) -> bool {
    (a: Exercise, b: Exercise) =>
      var older, younger := GradeOf(points, a.point), GradeOf(points, b.point);
      var s, t := SourceOf(points, a.point), SourceOf(points, b.point);
      older < younger || (older == younger && AtOrBefore(s, t) && (s == t ==> a.number <= b.number))
  }

  /** The order is total, so the exercises of a set do come in it. */
  lemma ExercisesAreOrdered(points: Points, exercises: seq<Exercise>)
    ensures SortedBy(Sorted(exercises, InOrderOf(points)), InOrderOf(points))
  {
    var le := InOrderOf(points);
    StringsOrdered();
    forall a, b ensures le(a, b) || le(b, a) {
      StringsTotal(SourceOf(points, a.point), SourceOf(points, b.point));
    }
    forall a, b, c | le(a, b) && le(b, c) ensures le(a, c) {
      var s, t, u := SourceOf(points, a.point), SourceOf(points, b.point), SourceOf(points, c.point);
      StringsTotal(s, t);
      StringsTotal(t, u);
      if AtOrBefore(s, t) && AtOrBefore(t, u) {
        StringsTransitive(s, t, u);
      }
    }
    SortOrders(exercises, le);
  }

  function LayerAt(layerOf: map<string, nat>, e: Exercise): int {
    if e.point in layerOf then layerOf[e.point] else 0
  }

  /** The layer of an exercise is its point's. */
  function LayerBy(layerOf: map<string, nat>): Exercise -> int {
    (e: Exercise) => LayerAt(layerOf, e)
  }

  function InLayer(exercises: seq<Exercise>, layerOf: map<string, nat>, layer: int): seq<Exercise> {
    if |exercises| == 0 then []
    else
      var n := |exercises| - 1;
      InLayer(exercises[..n], layerOf, layer) + if LayerAt(layerOf, exercises[n]) == layer then [exercises[n]] else []
  }

  /** The layers 1 to `top` that hold exercises. */
  function LayersUpTo(exercises: seq<Exercise>, layerOf: map<string, nat>, top: nat): seq<Layer<Exercise>> {
    if top == 0 then []
    else
      var held := InLayer(exercises, layerOf, top);
      LayersUpTo(exercises, layerOf, top - 1) + if held == [] then [] else [Layer(top, held)]
  }

  lemma {:induction false} InLayerCounts(exercises: seq<Exercise>, layerOf: map<string, nat>, layer: int, e: Exercise)
    ensures Count(InLayer(exercises, layerOf, layer), e)
         == if LayerAt(layerOf, e) == layer then Count(exercises, e) else 0
  {
    if |exercises| > 0 {
      var n := |exercises| - 1;
      InLayerCounts(exercises[..n], layerOf, layer, e);
      CountOneMore(InLayer(exercises[..n], layerOf, layer), LayerAt(layerOf, exercises[n]) == layer, exercises[n], e);
    }
  }

  lemma LayersCount(exercises: seq<Exercise>, layerOf: map<string, nat>, top: nat, e: Exercise)
    ensures Count(AllOf(LayersUpTo(exercises, layerOf, top)), e)
         == if 1 <= LayerAt(layerOf, e) <= top then Count(exercises, e) else 0
  {
    var tally := (k: nat) => Count(AllOf(LayersUpTo(exercises, layerOf, k)), e);
    assert LayersUpTo(exercises, layerOf, 0) == [] && AllOf<Exercise>([]) == [];
    forall k: nat | 1 <= k <= top
      ensures tally(k) == tally(k - 1) + if LayerAt(layerOf, e) == k then Count(exercises, e) else 0
    {
      TopLayerCounts(exercises, layerOf, k, e);
    }
    TallyOf(tally, LayerAt(layerOf, e), Count(exercises, e), top);
  }

  /** A tally that grows at one layer only. */
  lemma {:induction false} TallyOf(tally: nat -> nat, layer: int, count: nat, top: nat)
    requires tally(0) == 0
    requires forall k: nat :: 1 <= k <= top ==> tally(k) == tally(k - 1) + if layer == k then count else 0
    ensures tally(top) == if 1 <= layer <= top then count else 0
  {
    if top > 0 {
      TallyOf(tally, layer, count, top - 1);
    }
  }

  lemma TopLayerCounts(exercises: seq<Exercise>, layerOf: map<string, nat>, top: nat, e: Exercise)
    requires top > 0
    ensures Count(AllOf(LayersUpTo(exercises, layerOf, top)), e)
         == Count(AllOf(LayersUpTo(exercises, layerOf, top - 1)), e)
            + if LayerAt(layerOf, e) == top then Count(exercises, e) else 0
  {
    var below, held := LayersUpTo(exercises, layerOf, top - 1), InLayer(exercises, layerOf, top);
    InLayerCounts(exercises, layerOf, top, e);
    if held == [] {
      assert LayersUpTo(exercises, layerOf, top) == below;
    } else {
      assert LayersUpTo(exercises, layerOf, top) == below + [Layer(top, held)];
      OneMoreLayer(below, Layer(top, held));
      CountAppends(AllOf(below), held, e);
    }
  }

  lemma OneMoreLayer(layers: seq<Layer<Exercise>>, layer: Layer<Exercise>)
    ensures AllOf(layers + [layer]) == AllOf(layers) + layer.exercises
  {
    assert (layers + [layer])[..|layers|] == layers;
  }

  lemma {:induction false} LayersAreLayered(exercises: seq<Exercise>, layerOf: map<string, nat>, top: nat)
    ensures Layered(LayersUpTo(exercises, layerOf, top), LayerBy(layerOf))
    ensures forall k :: 0 <= k < |LayersUpTo(exercises, layerOf, top)| ==>
              1 <= LayersUpTo(exercises, layerOf, top)[k].index <= top
  {
    if top > 0 {
      LayersAreLayered(exercises, layerOf, top - 1);
      InLayerIsLayer(exercises, layerOf, top);
    }
  }

  lemma {:induction false} InLayerIsLayer(exercises: seq<Exercise>, layerOf: map<string, nat>, layer: int)
    ensures forall e :: e in InLayer(exercises, layerOf, layer) ==> LayerAt(layerOf, e) == layer
  {
    if |exercises| > 0 {
      InLayerIsLayer(exercises[..|exercises| - 1], layerOf, layer);
    }
  }

  predicate AllLayered(exercises: seq<Exercise>, layerOf: map<string, nat>) {
    forall e :: e in exercises ==> e.point in layerOf && 1 <= layerOf[e.point] <= MAX_LAYERS
  }

  function HeldIn(byLayer: map<int, seq<Exercise>>, layer: int): seq<Exercise> {
    if layer in byLayer then byLayer[layer] else []
  }

  /** The exercises of every layer, under it. */
  ghost predicate IsGrouped(byLayer: map<int, seq<Exercise>>, exercises: seq<Exercise>, layerOf: map<string, nat>) {
    && (forall l :: HeldIn(byLayer, l) == InLayer(exercises, layerOf, l))
    && (forall l :: l in byLayer ==> |byLayer[l]| > 0)
  }

  method GroupByLayer(exercises: seq<Exercise>, layerOf: map<string, nat>) returns (byLayer: map<int, seq<Exercise>>)
    requires AllLayered(exercises, layerOf)
    ensures IsGrouped(byLayer, exercises, layerOf)
  {
    byLayer := map[];
    for n := 0 to |exercises|
      invariant IsGrouped(byLayer, exercises[..n], layerOf)
    {
      var layer := layerOf[exercises[n].point];
      var held := HeldIn(byLayer, layer) + [exercises[n]];
      OneMoreGrouped(byLayer, exercises, layerOf, n);
      byLayer := byLayer[layer := held];
    }
    assert exercises[..|exercises|] == exercises;
  }

  lemma OneMoreGrouped(byLayer: map<int, seq<Exercise>>, exercises: seq<Exercise>, layerOf: map<string, nat>, n: nat)
    requires n < |exercises| && exercises[n].point in layerOf && IsGrouped(byLayer, exercises[..n], layerOf)
    ensures var layer := layerOf[exercises[n].point];
            IsGrouped(byLayer[layer := HeldIn(byLayer, layer) + [exercises[n]]], exercises[..n + 1], layerOf)
  {
    var layer := layerOf[exercises[n].point];
    var more := byLayer[layer := HeldIn(byLayer, layer) + [exercises[n]]];
    assert exercises[..n + 1] == exercises[..n] + [exercises[n]];
    forall l ensures HeldIn(more, l) == InLayer(exercises[..n + 1], layerOf, l) {
      OneMoreInLayer(exercises[..n], exercises[n], layerOf, l);
      assert HeldIn(byLayer, l) == InLayer(exercises[..n], layerOf, l);
    }
  }

  /** The exercises by layer, the layers in order. */
  method ByLayer(exercises: seq<Exercise>, layerOf: map<string, nat>) returns (layers: seq<Layer<Exercise>>)
    requires AllLayered(exercises, layerOf)
    ensures layers == LayersUpTo(exercises, layerOf, MAX_LAYERS)
  {
    var byLayer := GroupByLayer(exercises, layerOf);
    layers := [];
    for l := 1 to MAX_LAYERS + 1
      invariant layers == LayersUpTo(exercises, layerOf, l - 1)
    {
      assert HeldIn(byLayer, l) == InLayer(exercises, layerOf, l);
      if l in byLayer {
        layers := layers + [Layer(l, byLayer[l])];
      }
    }
  }

  type Sets = seq<PracticeSet<Exercise>>

  function Everything(sets: Sets): seq<Exercise> {
    if |sets| == 0 then [] else Everything(sets[..|sets| - 1]) + sets[|sets| - 1].exercises
  }

  lemma {:induction false} EverythingAppends(a: Sets, b: Sets)
    ensures Everything(a + b) == Everything(a) + Everything(b)
  {
    if |b| == 0 {
      assert a + b == a;
    } else {
      EverythingAppends(a, b[..|b| - 1]);
      assert (a + b)[..|a + b| - 1] == a + b[..|b| - 1];
    }
  }

  lemma {:induction false} PartsKeep(questionType: nat, stage: Stage<Exercise>, k: nat)
    requires k <= |Parts(stage.exercises)|
    ensures Everything(CutStage(questionType, stage)[..k]) == Joined(Parts(stage.exercises)[..k])
  {
    if k > 0 {
      PartsKeep(questionType, stage, k - 1);
      var sets, parts := CutStage(questionType, stage), Parts(stage.exercises);
      assert sets[..k][..k - 1] == sets[..k - 1] && parts[..k] == parts[..k - 1] + [parts[k - 1]];
      JoinedAppends(parts[..k - 1], parts[k - 1]);
    }
  }

  /** Cutting the stages keeps their exercises, in order. */
  lemma {:induction false} CutKeeps(questionType: nat, stages: seq<Stage<Exercise>>)
    ensures Everything(CutStages(questionType, stages)) == AllStaged(stages)
  {
    if |stages| > 0 {
      var n := |stages| - 1;
      CutKeeps(questionType, stages[..n]);
      EverythingAppends(CutStages(questionType, stages[..n]), CutStage(questionType, stages[n]));
      var parts := Parts(stages[n].exercises);
      PartsKeep(questionType, stages[n], |parts|);
      assert parts[..|parts|] == parts
             && CutStage(questionType, stages[n])[..|parts|] == CutStage(questionType, stages[n]);
      PartsAreEven(stages[n].exercises);
    }
  }

  /** The stages of one question type of a star: its exercises sorted, layered and staged. */
  function TypeStages(exercises: seq<Exercise>, points: Points, layerOf: map<string, nat>): seq<Stage<Exercise>> {
    StagesOf(LayersUpTo(Sorted(exercises, InOrderOf(points)), layerOf, MAX_LAYERS))
  }

  /** The sets of one question type hold its exercises, each as often as it was filed. */
  lemma TypeKeeps(questionType: nat, exercises: seq<Exercise>, points: Points, layerOf: map<string, nat>, e: Exercise)
    requires AllLayered(exercises, layerOf)
    ensures Count(Everything(CutStages(questionType, TypeStages(exercises, points, layerOf))), e) == Count(exercises, e)
  {
    var sorted := Sorted(exercises, InOrderOf(points));
    TypeIsAll(questionType, exercises, points, layerOf);
    SortKeepsCounts(exercises, points, e);
    LayersCount(sorted, layerOf, MAX_LAYERS, e);
    CountedIsIn(exercises, e);
  }

  lemma TypeIsAll(questionType: nat, exercises: seq<Exercise>, points: Points, layerOf: map<string, nat>)
    ensures Everything(CutStages(questionType, TypeStages(exercises, points, layerOf)))
         == AllOf(LayersUpTo(Sorted(exercises, InOrderOf(points)), layerOf, MAX_LAYERS))
  {
    var layers := LayersUpTo(Sorted(exercises, InOrderOf(points)), layerOf, MAX_LAYERS);
    CutKeeps(questionType, StagesOf(layers));
    StagesAreRuns(layers);
    StagesKeepOrder(layers, StagesOf(layers));
  }

  /** By layer, and inside a layer by grade, source id and number. */
  function LayerThenOrder(points: Points, layerOf: map<string, nat>): (Exercise, Exercise) -> bool {
    (a: Exercise, b: Exercise) =>
      LayerAt(layerOf, a) < LayerAt(layerOf, b)
      || (LayerAt(layerOf, a) == LayerAt(layerOf, b) && InOrderOf(points)(a, b))
  }

  lemma {:induction false} InLayerStaysSorted(exercises: seq<Exercise>, layerOf: map<string, nat>, layer: int,
                                              le: (Exercise, Exercise) -> bool)
    requires SortedBy(exercises, le)
    ensures SortedBy(InLayer(exercises, layerOf, layer), le)
    ensures forall e :: e in InLayer(exercises, layerOf, layer) ==> e in exercises && LayerAt(layerOf, e) == layer
  {
    if |exercises| > 0 {
      var n := |exercises| - 1;
      InLayerStaysSorted(exercises[..n], layerOf, layer, le);
      forall e | e in exercises[..n] ensures le(e, exercises[n]) {
      }
    }
  }

  /** The first layers in order, none of them above `top`. */
  ghost predicate InOrderUpTo(exercises: seq<Exercise>, points: Points, layerOf: map<string, nat>, top: int) {
    && SortedBy(exercises, LayerThenOrder(points, layerOf))
    && forall e :: e in exercises ==> LayerAt(layerOf, e) <= top
  }

  lemma {:induction false} LayersComeInOrder(exercises: seq<Exercise>, points: Points, layerOf: map<string, nat>,
                                             top: nat)
    requires SortedBy(exercises, InOrderOf(points))
    ensures InOrderUpTo(AllOf(LayersUpTo(exercises, layerOf, top)), points, layerOf, top)
  {
    if top > 0 {
      LayersComeInOrder(exercises, points, layerOf, top - 1);
      TopComesInOrder(exercises, points, layerOf, top);
    } else {
      NoLayersYet(exercises, points, layerOf);
    }
  }

  lemma NoLayersYet(exercises: seq<Exercise>, points: Points, layerOf: map<string, nat>)
    ensures InOrderUpTo(AllOf(LayersUpTo(exercises, layerOf, 0)), points, layerOf, 0)
  {
  }

  lemma TopComesInOrder(exercises: seq<Exercise>, points: Points, layerOf: map<string, nat>, top: nat)
    requires SortedBy(exercises, InOrderOf(points)) && top > 0
    requires InOrderUpTo(AllOf(LayersUpTo(exercises, layerOf, top - 1)), points, layerOf, top - 1)
    ensures InOrderUpTo(AllOf(LayersUpTo(exercises, layerOf, top)), points, layerOf, top)
  {
    var below, held := LayersUpTo(exercises, layerOf, top - 1), InLayer(exercises, layerOf, top);
    InLayerStaysSorted(exercises, layerOf, top, InOrderOf(points));
    if held == [] {
      assert LayersUpTo(exercises, layerOf, top) == below;
    } else {
      assert LayersUpTo(exercises, layerOf, top) == below + [Layer(top, held)];
      OneMoreLayer(below, Layer(top, held));
      OrdersJoin(AllOf(below), held, points, layerOf, top);
    }
  }

  lemma OrdersJoin(below: seq<Exercise>, held: seq<Exercise>, points: Points, layerOf: map<string, nat>, top: nat)
    requires SortedBy(below, LayerThenOrder(points, layerOf)) && SortedBy(held, InOrderOf(points))
    requires forall e :: e in below ==> LayerAt(layerOf, e) < top
    requires forall e :: e in held ==> LayerAt(layerOf, e) == top
    ensures InOrderUpTo(below + held, points, layerOf, top)
  {
    var le, all := LayerThenOrder(points, layerOf), below + held;
    forall i, j | 0 <= i < j < |all| ensures le(all[i], all[j]) {
      if j < |below| {
        assert all[i] == below[i] && all[j] == below[j];
      } else {
        assert all[j] == held[j - |below|] && all[j] in held;
        if i < |below| {
          assert all[i] in below;
        } else {
          assert all[i] == held[i - |below|] && all[i] in held;
        }
      }
    }
  }

  /** Walked set after set, the exercises of a question type come by layer, and inside a layer by
      grade, source id and number. */
  lemma TypeComesInOrder(questionType: nat, exercises: seq<Exercise>, points: Points, layerOf: map<string, nat>)
    ensures var walked := Everything(CutStages(questionType, TypeStages(exercises, points, layerOf)));
            forall i, j :: 0 <= i < j < |walked| ==> NotAfter(points, layerOf, walked[i], walked[j])
  {
    ExercisesAreOrdered(points, exercises);
    TypeIsAll(questionType, exercises, points, layerOf);
    LayersComeInOrder(Sorted(exercises, InOrderOf(points)), points, layerOf, MAX_LAYERS);
    var walked := Everything(CutStages(questionType, TypeStages(exercises, points, layerOf)));
    forall i, j | 0 <= i < j < |walked| ensures NotAfter(points, layerOf, walked[i], walked[j]) {
      assert LayerThenOrder(points, layerOf)(walked[i], walked[j]);
      NotAfterIff(points, layerOf, walked[i], walked[j]);
    }
  }

  lemma NotAfterIff(points: Points, layerOf: map<string, nat>, a: Exercise, b: Exercise)
    ensures LayerThenOrder(points, layerOf)(a, b) <==> NotAfter(points, layerOf, a, b)
  {
    var s, t := SourceOf(points, a.point), SourceOf(points, b.point);
    AtOrBeforeIff(s, t);
    AtOrBeforeIff(t, s);
    var older, younger := GradeOf(points, a.point), GradeOf(points, b.point);
    assert s == t ==> !Precedes(s, t);
    assert InOrderOf(points)(a, b)
      <==> older < younger || (older == younger && AtOrBefore(s, t) && (s == t ==> a.number <= b.number));
  }

  /** One exercise is not after another: in a lower layer; or there by a lower grade; or by the source
      id of its point; or by its own number. */
  ghost predicate NotAfter(points: Points, layerOf: map<string, nat>, a: Exercise, b: Exercise) {
    var p, q := PointAt(points, a.point), PointAt(points, b.point);
    || LayerAt(layerOf, a) < LayerAt(layerOf, b)
    || (LayerAt(layerOf, a) == LayerAt(layerOf, b)
        && (|| p.grade < q.grade
            || (p.grade == q.grade && Precedes(p.sourceId, q.sourceId))
            || (p.grade == q.grade && p.sourceId == q.sourceId && a.number <= b.number)))
  }

  lemma SortKeepsCounts(exercises: seq<Exercise>, points: Points, e: Exercise)
    ensures Count(Sorted(exercises, InOrderOf(points)), e) == Count(exercises, e)
  {
    SortPermutes(exercises, InOrderOf(points));
    CountsOfEqual(Sorted(exercises, InOrderOf(points)), exercises, e);
  }

  // ── One star ────────────────────────────────────────────────────────────────

  /** The layers of a star's points, by its inner edges. */
  ghost predicate StarLayers(star: Star, edges: seq<Edge>, layerOf: map<string, nat>) {
    LayersOf(KeptInner((set n | n in star.points), edges), star.points, layerOf)
  }

  /** One entry per question type: the stages of the exercises filed under it. */
  function TableOf(built: Built, exercises: seq<Exercise>, points: Points, unit: string, slugs: seq<string>,
                   layerOf: map<string, nat>): (table: seq<seq<Stage<Exercise>>>)
    ensures |table| == |slugs|
  {
    seq(|slugs|, t requires 0 <= t < |slugs| => TypeStages(Filed(built, exercises, (unit, slugs[t])), points, layerOf))
  }

  predicate FiledInStar(built: Built, e: Exercise, unit: string, slugs: seq<string>) {
    exists t :: 0 <= t < |slugs| && IsFiledUnder(built, e, (unit, slugs[t]))
  }

  /** What the sets of a star hold of an exercise. */
  lemma {:induction false} StarCounts(built: Built, exercises: seq<Exercise>, points: Points, unit: string,
                                      slugs: seq<string>, layerOf: map<string, nat>, e: Exercise)
    requires NoRepeats(slugs)
    requires forall t :: 0 <= t < |slugs| ==> AllLayered(Filed(built, exercises, (unit, slugs[t])), layerOf)
    ensures Count(Everything(StarSets(TableOf(built, exercises, points, unit, slugs, layerOf))), e)
         == if FiledInStar(built, e, unit, slugs) then Count(Kept(exercises), e) else 0
  {
    if |slugs| > 0 {
      var n := |slugs| - 1;
      var filed := Filed(built, exercises, (unit, slugs[n]));
      var before := StarSets(TableOf(built, exercises, points, unit, slugs[..n], layerOf));
      StarCounts(built, exercises, points, unit, slugs[..n], layerOf, e);
      OneMoreTable(built, exercises, points, unit, slugs, n, layerOf);
      EverythingAppends(before, CutStages(n, TypeStages(filed, points, layerOf)));
      CountAppends(Everything(before), Everything(CutStages(n, TypeStages(filed, points, layerOf))), e);
      TypeKeeps(n, filed, points, layerOf, e);
      FiledCounts(built, exercises, (unit, slugs[n]), e);
      OneMoreType(built, e, unit, slugs, n);
      assert slugs[..n + 1] == slugs;
    }
  }

  /** The sets of one question type more. */
  lemma OneMoreTable(built: Built, exercises: seq<Exercise>, points: Points, unit: string, slugs: seq<string>, n: nat,
                     layerOf: map<string, nat>)
    requires n < |slugs|
    ensures StarSets(TableOf(built, exercises, points, unit, slugs[..n + 1], layerOf))
         == StarSets(TableOf(built, exercises, points, unit, slugs[..n], layerOf))
            + CutStages(n, TypeStages(Filed(built, exercises, (unit, slugs[n])), points, layerOf))
  {
    var more := TableOf(built, exercises, points, unit, slugs[..n + 1], layerOf);
    assert more[..n] == TableOf(built, exercises, points, unit, slugs[..n], layerOf);
  }

  lemma OneMoreType(built: Built, e: Exercise, unit: string, slugs: seq<string>, n: nat)
    requires n < |slugs| && NoRepeats(slugs)
    ensures FiledInStar(built, e, unit, slugs[..n + 1])
            <==> FiledInStar(built, e, unit, slugs[..n]) || IsFiledUnder(built, e, (unit, slugs[n]))
    ensures !(FiledInStar(built, e, unit, slugs[..n]) && IsFiledUnder(built, e, (unit, slugs[n])))
  {
    assert forall t :: 0 <= t < n ==> slugs[..n][t] == slugs[t] == slugs[..n + 1][t];
    assert slugs[..n + 1][n] == slugs[n];
  }

  lemma {:induction false} FiledAreFiled(built: Built, exercises: seq<Exercise>, key: Key)
    ensures forall e :: e in Filed(built, exercises, key) ==> e in exercises && IsFiledUnder(built, e, key)
  {
    if |exercises| > 0 {
      FiledAreFiled(built, exercises[..|exercises| - 1], key);
    }
  }

  /** The layers of a star cover every exercise filed under it. */
  lemma FiledAreLayered(built: Built, exercises: seq<Exercise>, edges: seq<Edge>, unit: string, slug: string,
                        layerOf: map<string, nat>)
    requires Agrees(built.stars, built.pointStar, built.pointStar.Keys) && unit in built.stars
    requires StarLayers(built.stars[unit], edges, layerOf)
    ensures AllLayered(Filed(built, exercises, (unit, slug)), layerOf)
  {
    FiledAreFiled(built, exercises, (unit, slug));
    var g := KeptInner((set n | n in built.stars[unit].points), edges);
    forall e | e in Filed(built, exercises, (unit, slug))
      ensures e.point in layerOf && 1 <= layerOf[e.point] <= MAX_LAYERS
    {
      var d: nat :| IsLayer(g, e.point, d) && layerOf[e.point] == Capped(d);
      LayersStartAtOne(g, e.point, d);
    }
  }

  lemma LayersStartAtOne(g: Graphs.Graph, n: string, d: nat)
    requires IsLayer(g, n, d)
    ensures d >= 1
  {
    assert ChainFrom(g, [n], n);
  }

  /** The stages of one question type. */
  method StageType(exercises: seq<Exercise>, points: Points, layerOf: map<string, nat>)
    returns (stages: seq<Stage<Exercise>>)
    requires AllLayered(exercises, layerOf)
    ensures stages == TypeStages(exercises, points, layerOf)
  {
    var sorted := Sorted(exercises, InOrderOf(points));
    SortMembers(exercises, InOrderOf(points));
    var layers := ByLayer(sorted, layerOf);
    stages := Stages(layers);
  }

  method CutType(questionType: nat, stages: seq<Stage<Exercise>>) returns (sets: Sets)
    ensures sets == CutStages(questionType, stages)
  {
    sets := [];
    for s := 0 to |stages|
      invariant sets == CutStages(questionType, stages[..s])
    {
      var cut := Parts(stages[s].exercises);
      ghost var whole := CutStage(questionType, stages[s]);
      for p := 0 to |cut|
        invariant sets == CutStages(questionType, stages[..s]) + whole[..p]
      {
        var order := stages[s].first * 100 + questionType * 10 + (p + 1);
        sets := sets + [PracticeSet(questionType, stages[s].first, p + 1, order, cut[p])];
        assert whole[..p + 1] == whole[..p] + [whole[p]];
      }
      assert whole[..|cut|] == whole && stages[..s + 1][..s] == stages[..s];
    }
    assert stages[..|stages|] == stages;
  }

  /** The practice sets of one star. */
  method StarManifest(built: Built, exercises: seq<Exercise>, points: Points, edges: seq<Edge>,
                      bySet: map<Key, seq<Exercise>>, unit: string, slugs: seq<string>)
    returns (sets: Sets, layerOf: map<string, nat>)
    requires Agrees(built.stars, built.pointStar, built.pointStar.Keys) && unit in built.stars
    requires forall key :: At(bySet, key) == Filed(built, exercises, key)
    ensures StarLayers(built.stars[unit], edges, layerOf)
    ensures sets == StarSets(TableOf(built, exercises, points, unit, slugs, layerOf))
  {
    layerOf := PointLayers(built.stars[unit].points, edges);
    forall t | 0 <= t < |slugs| ensures AllLayered(Filed(built, exercises, (unit, slugs[t])), layerOf) {
      FiledAreLayered(built, exercises, edges, unit, slugs[t], layerOf);
    }
    sets := TypeByType(built, exercises, points, bySet, unit, slugs, layerOf);
  }

  method TypeByType(built: Built, exercises: seq<Exercise>, points: Points, bySet: map<Key, seq<Exercise>>,
                    unit: string, slugs: seq<string>, layerOf: map<string, nat>) returns (sets: Sets)
    requires forall key :: At(bySet, key) == Filed(built, exercises, key)
    requires forall t :: 0 <= t < |slugs| ==> AllLayered(Filed(built, exercises, (unit, slugs[t])), layerOf)
    ensures sets == StarSets(TableOf(built, exercises, points, unit, slugs, layerOf))
  {
    sets := [];
    for t := 0 to |slugs|
      invariant sets == StarSets(TableOf(built, exercises, points, unit, slugs[..t], layerOf))
    {
      var stages := StageType(At(bySet, (unit, slugs[t])), points, layerOf);
      var cut := CutType(t, stages);
      OneMoreTable(built, exercises, points, unit, slugs, t, layerOf);
      sets := sets + cut;
    }
    assert slugs[..|slugs|] == slugs;
  }

  // ── The whole manifest ──────────────────────────────────────────────────────

  /** The rows of one star. */
  datatype StarRows = StarRows(unit: string, sets: Sets)

  function AllSets(rows: seq<StarRows>): Sets {
    if |rows| == 0 then [] else AllSets(rows[..|rows| - 1]) + rows[|rows| - 1].sets
  }

  /** The rows of a star come from its own exercises, layered by its own points. */
  ghost predicate StarBuilt(row: StarRows, built: Built, types: Types, exercises: seq<Exercise>, points: Points,
                            edges: seq<Edge>) {
    && row.unit in built.stars
    && exists layerOf :: BuiltFrom(row, layerOf, built, types, exercises, points, edges)
  }

  ghost predicate BuiltFrom(row: StarRows, layerOf: map<string, nat>,
                            built: Built, types: Types, exercises: seq<Exercise>, points: Points, edges: seq<Edge>)
    requires row.unit in built.stars
  {
    var star := built.stars[row.unit];
    && StarLayers(star, edges, layerOf)
    && row.sets == StarSets(TableOf(built, exercises, points, row.unit, types(star.subject), layerOf))
  }

  /** The question type of an exercise is one of its star's subject. */
  predicate HasPlace(built: Built, types: Types, e: Exercise)
    requires e.point in built.pointStar && e.id in built.types && built.pointStar[e.point] in built.stars
  {
    built.types[e.id] in types(built.stars[built.pointStar[e.point]].subject)
  }

  ghost predicate ManifestOf(rows: seq<StarRows>, built: Built, types: Types, exercises: seq<Exercise>, points: Points,
                             edges: seq<Edge>) {
    && |rows| <= |built.units|
    && forall k :: 0 <= k < |rows| ==>
      rows[k].unit == built.units[k] && StarBuilt(rows[k], built, types, exercises, points, edges)
  }

  /** What a manifest is built from: a star for every point, and the stars in some order. */
  ghost predicate WellBuilt(built: Built, types: Types, exercises: seq<Exercise>) {
    && Agrees(built.stars, built.pointStar, built.pointStar.Keys)
    && (forall u :: u in built.stars <==> u in built.units)
    && NoRepeats(built.units)
    && Known(built, exercises)
    && forall subject :: NoRepeats(types(subject))
  }

  method Manifests(built: Built, types: Types, exercises: seq<Exercise>, already: seq<string>, points: Points,
                   edges: seq<Edge>)
    returns (rows: seq<StarRows>, skipped: seq<string>)
    requires WellBuilt(built, types, exercises)
    ensures skipped == already + SourceIds(Dropped(exercises))
    ensures |rows| == |built.units| && ManifestOf(rows, built, types, exercises, points, edges)
  {
    var bySet;
    bySet, skipped := FileExercises(built, exercises, already);
    rows := [];
    for k := 0 to |built.units|
      invariant |rows| == k && ManifestOf(rows, built, types, exercises, points, edges)
    {
      var unit := built.units[k];
      var sets, layerOf := StarManifest(built, exercises, points, edges, bySet, unit, types(built.stars[unit].subject));
      assert BuiltFrom(StarRows(unit, sets), layerOf, built, types, exercises, points, edges);
      rows := rows + [StarRows(unit, sets)];
    }
  }

  predicate Placeable(built: Built, types: Types, e: Exercise) {
    e.point in built.pointStar && e.id in built.types && built.pointStar[e.point] in built.stars
    && HasPlace(built, types, e)
  }

  lemma FiledWhenPlaced(built: Built, types: Types, unit: string, e: Exercise)
    requires unit in built.stars
    ensures FiledInStar(built, e, unit, types(built.stars[unit].subject))
            <==> !e.tooLong && Placeable(built, types, e) && built.pointStar[e.point] == unit
  {
    var slugs := types(built.stars[unit].subject);
    if Placeable(built, types, e) && built.pointStar[e.point] == unit && !e.tooLong {
      var t :| 0 <= t < |slugs| && slugs[t] == built.types[e.id];
      assert IsFiledUnder(built, e, (unit, slugs[t]));
    }
  }

  /** A star's rows hold what was filed under it. */
  lemma StarRowsCount(row: StarRows, built: Built, types: Types, exercises: seq<Exercise>, points: Points,
                      edges: seq<Edge>, e: Exercise)
    requires WellBuilt(built, types, exercises) && StarBuilt(row, built, types, exercises, points, edges)
    ensures Count(Everything(row.sets), e)
         == if Placeable(built, types, e) && built.pointStar[e.point] == row.unit then Count(Kept(exercises), e) else 0
  {
    var layerOf :| BuiltFrom(row, layerOf, built, types, exercises, points, edges);
    var slugs := types(built.stars[row.unit].subject);
    forall t | 0 <= t < |slugs| ensures AllLayered(Filed(built, exercises, (row.unit, slugs[t])), layerOf) {
      FiledAreLayered(built, exercises, edges, row.unit, slugs[t], layerOf);
    }
    StarCounts(built, exercises, points, row.unit, slugs, layerOf, e);
    FiledWhenPlaced(built, types, row.unit, e);
    TooLongIsDropped(exercises, e);
  }

  lemma TooLongIsDropped(exercises: seq<Exercise>, e: Exercise)
    ensures Count(Kept(exercises), e) > 0 ==> e in exercises && !e.tooLong
  {
    DroppedOrKept(exercises);
    CountedIsIn(Kept(exercises), e);
  }

  /** When only one star holds an exercise, the rows hold it as often as that star does. */
  lemma {:induction false} OneStarHolds(rows: seq<StarRows>, units: seq<string>, unit: string, count: nat, e: Exercise)
    requires |rows| <= |units| && NoRepeats(units)
    requires forall k :: 0 <= k < |rows| ==> Count(Everything(rows[k].sets), e) == if units[k] == unit then count else 0
    ensures Count(Everything(AllSets(rows)), e) == if unit in units[..|rows|] then count else 0
  {
    if |rows| > 0 {
      var n := |rows| - 1;
      OneStarHolds(rows[..n], units, unit, count, e);
      EverythingAppends(AllSets(rows[..n]), rows[n].sets);
      CountAppends(Everything(AllSets(rows[..n])), Everything(rows[n].sets), e);
      assert units[..n + 1] == units[..n] + [units[n]];
    }
  }

  /** What the manifest holds of an exercise. */
  lemma ManifestCounts(rows: seq<StarRows>, built: Built, types: Types, exercises: seq<Exercise>, points: Points,
                       edges: seq<Edge>, e: Exercise)
    requires WellBuilt(built, types, exercises)
    requires |rows| == |built.units| && ManifestOf(rows, built, types, exercises, points, edges)
    ensures Count(Everything(AllSets(rows)), e) == if Placeable(built, types, e) then Count(Kept(exercises), e) else 0
  {
    var count := if Placeable(built, types, e) then Count(Kept(exercises), e) else 0;
    var unit := if Placeable(built, types, e) then built.pointStar[e.point] else "";
    forall k | 0 <= k < |rows|
      ensures Count(Everything(rows[k].sets), e) == if built.units[k] == unit then count else 0
    {
      StarRowsCount(rows[k], built, types, exercises, points, edges, e);
    }
    OneStarHolds(rows, built.units, unit, count, e);
    assert built.units[..|rows|] == built.units;
  }

  /** Nothing is lost or doubled: every exercise is skipped or in the practice sets as often as in
      the input, exactly when the type of every exercise kept is a question type of its star's subject. */
  lemma ManifestsKeepIff(rows: seq<StarRows>, built: Built, types: Types, exercises: seq<Exercise>, points: Points,
                         edges: seq<Edge>)
    requires WellBuilt(built, types, exercises)
    requires |rows| == |built.units| && ManifestOf(rows, built, types, exercises, points, edges)
    ensures multiset(Dropped(exercises)) + multiset(Everything(AllSets(rows))) == multiset(exercises)
            <==> forall e :: e in Kept(exercises) ==> Placeable(built, types, e)
  {
    DroppedOrKept(exercises);
    var held, kept := Everything(AllSets(rows)), Kept(exercises);
    CancelLeft(multiset(Dropped(exercises)), multiset(held), multiset(kept));
    if forall e :: e in kept ==> Placeable(built, types, e) {
      forall e ensures Count(held, e) == Count(kept, e) {
        ManifestCounts(rows, built, types, exercises, points, edges, e);
        CountedIsIn(kept, e);
      }
      EqualCounts(held, kept);
    } else {
      var e :| e in kept && !Placeable(built, types, e);
      ManifestCounts(rows, built, types, exercises, points, edges, e);
      CountedIsIn(kept, e);
      if multiset(held) == multiset(kept) {
        CountsOfEqual(held, kept, e);
        assert false;
      }
    }
  }

  lemma CancelLeft(a: multiset<Exercise>, b: multiset<Exercise>, c: multiset<Exercise>)
    ensures a + b == a + c <==> b == c
  {
    assert (a + b) - a == b && (a + c) - a == c;
  }

  // ── From the structure to the practice sets ─────────────────────────────────

  /** Points filed in the same nebula are of one subject: a point is filed among its subject's groups. */
  ghost predicate OneSubject(catalog: Catalog, byId: Points) {
    forall p, q :: p in byId && q in byId && catalog.topicOf(byId[p].group) == catalog.topicOf(byId[q].group) ==>
                     byId[p].subject == byId[q].subject
  }

  /** A fitting star has the subject of each of its points. */
  lemma StarHasSubject(catalog: Catalog, byId: Points, star: Star, p: string)
    requires Fits(catalog, byId, star) && OneSubject(catalog, byId) && p in star.points
    ensures p in byId && byId[p].subject == star.subject
  {
    var q :| q in star.points && q in byId && byId[q].subject == star.subject;
    assert catalog.topicOf(byId[p].group) == catalog.topicOf(byId[q].group);
  }

  /** The structure of both passes is what a manifest is built from: with one batch at most for a
      nebula, no problems and no clash, every exercise has a star and a question type of its subject. */
  lemma StructuredIsWellBuilt(catalog: Catalog, points: seq<Point>, exercises: seq<Exercise>, built: Built)
    requires OneSubject(catalog, ById(points)) && forall subject :: NoRepeats(catalog.types(subject))
    requires !SomeStray(ById(points), exercises) && TypeProblems(catalog, ById(points), built.types, exercises) == []
    requires AllFit(catalog, ById(points), built.stars) && Agrees(built.stars, built.pointStar, Set(Ids(points)))
    requires NoRepeats(built.units) && forall u :: u in built.stars <==> u in built.units
    ensures WellBuilt(built, catalog.types, exercises)
    ensures forall e :: e in exercises ==> Placeable(built, catalog.types, e)
  {
    NoTypeProblems(catalog, ById(points), built.types, exercises);
    forall e | e in exercises
      ensures e.point in built.pointStar && e.id in built.types && Placeable(built, catalog.types, e)
    {
      PlacedIsTyped(catalog, points, exercises, built, e);
    }
  }

  lemma PlacedIsTyped(catalog: Catalog, points: seq<Point>, exercises: seq<Exercise>, built: Built, e: Exercise)
    requires OneSubject(catalog, ById(points)) && !SomeStray(ById(points), exercises)
    requires e in exercises && IsTyped(catalog, ById(points), built.types, e)
    requires AllFit(catalog, ById(points), built.stars) && Agrees(built.stars, built.pointStar, Set(Ids(points)))
    ensures Placeable(built, catalog.types, e)
  {
    NotStray(ById(points), exercises, e);
    IdsAreKeys(points);
    var unit := built.pointStar[e.point];
    assert unit in built.stars && e.point in built.stars[unit].points;
    StarHasSubject(catalog, ById(points), built.stars[unit], e.point);
  }

  lemma NotStray(byId: Points, exercises: seq<Exercise>, e: Exercise)
    requires !SomeStray(byId, exercises) && e in exercises
    ensures e.point in byId
  {
    var k :| 0 <= k < |exercises| && exercises[k] == e;
    var stray := (e: Exercise) => IsStray(byId, e);
    assert !stray(exercises[k]);
  }

  lemma IdsAreKeys(points: seq<Point>)
    ensures Set(Ids(points)) == ById(points).Keys
  {
    forall k | 0 <= k < |points| ensures points[k].id in Ids(points) {
      assert Ids(points)[k] == points[k].id;
    }
    forall id | id in Ids(points) ensures id in ById(points).Keys {
      var k :| 0 <= k < |points| && Ids(points)[k] == id;
      assert points[k].id == id;
    }
  }

  /** From the structure to the practice sets: what `StructureAndMerge` promises of a draft without
      problems and clashes is enough for every exercise to be skipped for its length or to be in the
      sets as often as in the input. */
  lemma StructuredManifestsKeep(rows: seq<StarRows>, catalog: Catalog, points: seq<Point>, exercises: seq<Exercise>,
                                built: Built, edges: seq<Edge>)
    requires OneSubject(catalog, ById(points)) && forall subject :: NoRepeats(catalog.types(subject))
    requires !SomeStray(ById(points), exercises) && TypeProblems(catalog, ById(points), built.types, exercises) == []
    requires AllFit(catalog, ById(points), built.stars) && Agrees(built.stars, built.pointStar, Set(Ids(points)))
    requires NoRepeats(built.units) && forall u :: u in built.stars <==> u in built.units
    requires |rows| == |built.units| && ManifestOf(rows, built, catalog.types, exercises, ById(points), edges)
    ensures multiset(Dropped(exercises)) + multiset(Everything(AllSets(rows))) == multiset(exercises)
  {
    StructuredIsWellBuilt(catalog, points, exercises, built);
    DroppedOrKept(exercises);
    ManifestsKeepIff(rows, built, catalog.types, exercises, ById(points), edges);
  }

  /** The places of a star keep apart: at most ten question types, and at most a hundred exercises,
      which are ten sets, to a stage. */
  ghost predicate FewEnough(table: seq<seq<Stage<Exercise>>>) {
    |table| <= 10 && forall t, s :: 0 <= t < |table| && 0 <= s < |table[t]| ==> |table[t][s].exercises| <= 100
  }

  lemma TableIsStaged(built: Built, exercises: seq<Exercise>, points: Points, unit: string, slugs: seq<string>,
                      layerOf: map<string, nat>)
    requires FewEnough(TableOf(built, exercises, points, unit, slugs, layerOf))
    ensures StagedTable(TableOf(built, exercises, points, unit, slugs, layerOf), LayerBy(layerOf))
  {
    var table := TableOf(built, exercises, points, unit, slugs, layerOf);
    forall t | 0 <= t < |table|
      ensures InOrder(table[t]) && forall s :: 0 <= s < |table[t]| ==> Spans(table[t][s], LayerBy(layerOf))
    {
      var layers := LayersUpTo(Sorted(Filed(built, exercises, (unit, slugs[t])), InOrderOf(points)), layerOf,
                               MAX_LAYERS);
      LayersAreLayered(Sorted(Filed(built, exercises, (unit, slugs[t])), InOrderOf(points)), layerOf, MAX_LAYERS);
      StagesAreRuns(layers);
      StagesAreInOrder(layers, table[t]);
      StagesSpan(layers, table[t], LayerBy(layerOf));
    }
  }

  /** Walking a star's sets by their places climbs its layers exactly when, among the stages of its
      exercises, none reaches past the start of a later stage of another question type. Within a type
      it always climbs, and no two sets share a place. */
  lemma StarWalk(row: StarRows, layerOf: map<string, nat>, built: Built, types: Types, exercises: seq<Exercise>,
                 points: Points, edges: seq<Edge>)
    requires row.unit in built.stars && BuiltFrom(row, layerOf, built, types, exercises, points, edges)
    requires FewEnough(TableOf(built, exercises, points, row.unit, types(built.stars[row.unit].subject), layerOf))
    ensures var table := TableOf(built, exercises, points, row.unit, types(built.stars[row.unit].subject), layerOf);
            WalkClimbs(row.sets, LayerBy(layerOf)) <==> forall t, s, u, v :: !Overlap(table, t, s, u, v)
    ensures forall a, b :: a in row.sets && b in row.sets && a.questionType == b.questionType && a.order < b.order ==>
              GoesUp(a, b, LayerBy(layerOf))
    ensures forall a, b :: a in row.sets && b in row.sets && a.order == b.order ==> a == b
  {
    var slugs := types(built.stars[row.unit].subject);
    var table := TableOf(built, exercises, points, row.unit, slugs, layerOf);
    TableIsStaged(built, exercises, points, row.unit, slugs, layerOf);
    WalkClimbsIff(table, LayerBy(layerOf));
    forall a, b | a in row.sets && b in row.sets && a.questionType == b.questionType && a.order < b.order
      ensures GoesUp(a, b, LayerBy(layerOf))
    {
      TypeWalkClimbs(table, LayerBy(layerOf), a, b);
    }
    forall a, b | a in row.sets && b in row.sets && a.order == b.order ensures a == b {
      PlacesDiffer(table, LayerBy(layerOf), a, b);
    }
  }

  // ── A walk that steps back ──────────────────────────────────────────────────

  /** A star of two points, `q` after `p`, with two question types: one exercise of the first type on
      each point, and one of the second type on `p`. */
  function TwoPoints(): seq<Edge> {
    [Edge("q", "p", HARD)]
  }

  function ExamplePoints(): Points {
    map["p" := Point("p", "m", "g", 1, "s1"), "q" := Point("q", "m", "g", 2, "s2")]
  }

  function ExampleBuilt(): Built {
    Built(map["u" := Star("n", "m", ["p", "q"], 1, 2)], ["u"], map["p" := "u", "q" := "u"],
          map["1" := "a", "2" := "a", "3" := "b"])
  }

  function OnP(id: string): Exercise {
    Exercise(id, "s", "p", 1, false)
  }

  function OnQ(id: string): Exercise {
    Exercise(id, "s", "q", 1, false)
  }

  lemma ExampleNames()
    ensures "p" != "q" && "a" != "b" && "1" != "2" && "1" != "3" && "2" != "3"
  {
    assert "p"[0] != "q"[0] && "a"[0] != "b"[0] && "1"[0] != "2"[0] && "1"[0] != "3"[0] && "2"[0] != "3"[0];
  }

  lemma ExampleTypes()
    ensures var types := ExampleBuilt().types; "1" in types && "2" in types && "3" in types
    ensures ExampleBuilt().types["1"] == ExampleBuilt().types["2"] == "a" && ExampleBuilt().types["3"] == "b"
    ensures var points := ExamplePoints(); "p" in points && "q" in points
    ensures ExamplePoints()["p"].grade == 1 && ExamplePoints()["q"].grade == 2
  {
    ExampleNames();
  }

  lemma ExampleLayers(layerOf: map<string, nat>)
    requires StarLayers(ExampleBuilt().stars["u"], TwoPoints(), layerOf)
    ensures layerOf == map["p" := 1, "q" := 2]
  {
    var mine := set n | n in ["p", "q"];
    var g := KeptInner(mine, TwoPoints());
    var empty: Graphs.Graph := map[];
    assert TwoPoints()[..0] == [] && KeptInner(mine, TwoPoints()[..0]) == empty;
    assert "p" in ["p", "q"] && "q" in ["p", "q"];
    ExampleNames();
    forall path ensures !Graphs.IsPath(empty, path, "p", "q") {
      assert |path| > 1 ==> path[1] !in Graphs.Succ(empty, path[0]);
    }
    assert Inner(mine, TwoPoints()[0]) && g == Graphs.WithEdge(empty, "q", "p");
    assert Graphs.Succ(empty, "q") + {"p"} == {"p"};
    assert g == map["q" := {"p"}];
    assert IsLayer(g, "p", 1) && IsLayer(g, "q", 2) by {
      ChainsOfTwo(g);
    }
    forall n, d: nat | n in ["p", "q"] && IsLayer(g, n, d) && layerOf[n] == Capped(d)
      ensures d == if n == "p" then 1 else 2
    {
      LayerIsUnique(g, n, d, if n == "p" then 1 else 2);
    }
  }

  lemma ChainsOfTwo(g: Graphs.Graph)
    requires g == map["q" := {"p"}]
    ensures IsLayer(g, "p", 1) && IsLayer(g, "q", 2)
  {
    assert ChainFrom(g, ["p"], "p") && ChainFrom(g, ["q", "p"], "q");
    forall c | ChainFrom(g, c, "p") ensures |c| <= 1 {
      assert |c| > 1 ==> c[1] in Graphs.Succ(g, c[0]);
    }
    forall c | ChainFrom(g, c, "q") ensures |c| <= 2 {
      assert |c| > 1 ==> c[1] in Graphs.Succ(g, c[0]);
      assert |c| > 2 ==> c[2] in Graphs.Succ(g, c[1]);
    }
  }

  lemma OneMoreFiled(built: Built, exercises: seq<Exercise>, e: Exercise, key: Key)
    ensures Filed(built, exercises + [e], key)
         == Filed(built, exercises, key) + if IsFiledUnder(built, e, key) then [e] else []
  {
    assert (exercises + [e])[..|exercises|] == exercises;
  }

  lemma OneMoreInLayer(exercises: seq<Exercise>, e: Exercise, layerOf: map<string, nat>, layer: int)
    ensures InLayer(exercises + [e], layerOf, layer)
         == InLayer(exercises, layerOf, layer) + if LayerAt(layerOf, e) == layer then [e] else []
  {
    assert (exercises + [e])[..|exercises|] == exercises;
  }

  lemma FiledOfThree(built: Built, a: Exercise, b: Exercise, c: Exercise, key: Key)
    ensures Filed(built, [a, b, c], key)
         == (if IsFiledUnder(built, a, key) then [a] else []) + (if IsFiledUnder(built, b, key) then [b] else [])
            + (if IsFiledUnder(built, c, key) then [c] else [])
  {
    assert Filed(built, [], key) == [];
    OneMoreFiled(built, [], a, key);
    OneMoreFiled(built, [a], b, key);
    OneMoreFiled(built, [a, b], c, key);
    assert [] + [a] == [a] && [a] + [b] == [a, b] && [a, b] + [c] == [a, b, c];
  }

  lemma ExampleKeys(first: Exercise, second: Exercise, third: Exercise, slug: string)
    requires first == OnP("1") && second == OnQ("2") && third == OnP("3")
    ensures IsFiledUnder(ExampleBuilt(), first, ("u", slug)) <==> slug == "a"
    ensures IsFiledUnder(ExampleBuilt(), second, ("u", slug)) <==> slug == "a"
    ensures IsFiledUnder(ExampleBuilt(), third, ("u", slug)) <==> slug == "b"
  {
    ExampleNames();
    ExampleTypes();
  }

  lemma ExampleFiled(first: Exercise, second: Exercise, third: Exercise)
    requires first == OnP("1") && second == OnQ("2") && third == OnP("3")
    ensures Filed(ExampleBuilt(), [first, second, third], ("u", "a")) == [first, second]
    ensures Filed(ExampleBuilt(), [first, second, third], ("u", "b")) == [third]
  {
    ExampleNames();
    ExampleKeys(first, second, third, "a");
    ExampleKeys(first, second, third, "b");
    FiledOfThree(ExampleBuilt(), first, second, third, ("u", "a"));
    FiledOfThree(ExampleBuilt(), first, second, third, ("u", "b"));
  }

  /** Two exercises, one to a layer, are too few for two stages. */
  lemma TwoInOneStage(first: Exercise, second: Exercise, layerOf: map<string, nat>)
    requires first == OnP("1") && second == OnQ("2") && layerOf == map["p" := 1, "q" := 2]
    ensures TypeStages([first, second], ExamplePoints(), layerOf) == [Stage(1, 2, [first, second])]
  {
    var points, both := ExamplePoints(), [first, second];
    var le := InOrderOf(points);
    ExampleNames();
    ExampleTypes();
    assert LayerAt(layerOf, first) == 1 && LayerAt(layerOf, second) == 2;
    assert GradeOf(points, first.point) == 1 && GradeOf(points, second.point) == 2;
    assert le(first, second);
    assert both[1..] == [second] && [second][1..] == [] && Sorted([second], le) == [second];
    assert Sorted(both, le) == Insert(first, [second], le) == both;
    forall layer
      ensures InLayer(both, layerOf, layer) == (if layer == 1 then [first] else if layer == 2 then [second] else [])
    {
      assert InLayer([], layerOf, layer) == [];
      OneMoreInLayer([], first, layerOf, layer);
      OneMoreInLayer([first], second, layerOf, layer);
      assert [] + [first] == [first] && [first] + [second] == both;
    }
    assert LayersUpTo(both, layerOf, 1) == [Layer(1, [first])];
    assert LayersUpTo(both, layerOf, 2) == [Layer(1, [first]), Layer(2, [second])];
    assert LayersUpTo(both, layerOf, 3) == LayersUpTo(both, layerOf, 2);
    assert LayersUpTo(both, layerOf, MAX_LAYERS) == LayersUpTo(both, layerOf, 3);
    TwoThinLayers(Layer(1, [first]), Layer(2, [second]));
    assert [first] + [second] == both;
  }

  lemma TwoThinLayers(a: Layer<Exercise>, b: Layer<Exercise>)
    requires |a.exercises| == |b.exercises| == 1
    ensures StagesOf([a]) == [Stage(a.index, a.index, a.exercises)]
    ensures StagesOf([a, b]) == [Stage(a.index, b.index, a.exercises + b.exercises)]
  {
    var one := [Stage(a.index, a.index, a.exercises)];
    assert [a, b][..1] == [a] && [a][..0] == [];
    assert Growing<Exercise>([]) == [] && Growing([a]) == one;
    assert Growing([a, b]) == Grown(one, b);
  }

  lemma OneInOneStage(third: Exercise, layerOf: map<string, nat>)
    requires third == OnP("3") && layerOf == map["p" := 1, "q" := 2]
    ensures TypeStages([third], ExamplePoints(), layerOf) == [Stage(1, 1, [third])]
  {
    var le, alone := InOrderOf(ExamplePoints()), [third];
    ExampleNames();
    assert LayerAt(layerOf, third) == 1;
    assert alone[1..] == [] && Sorted(alone, le) == alone;
    forall layer ensures InLayer(alone, layerOf, layer) == if layer == 1 then alone else [] {
      assert InLayer([], layerOf, layer) == [];
      OneMoreInLayer([], third, layerOf, layer);
      assert [] + alone == alone;
    }
    assert LayersUpTo(alone, layerOf, 1) == [Layer(1, alone)];
    assert LayersUpTo(alone, layerOf, 2) == LayersUpTo(alone, layerOf, 1);
    assert LayersUpTo(alone, layerOf, 3) == LayersUpTo(alone, layerOf, 2);
    assert LayersUpTo(alone, layerOf, MAX_LAYERS) == LayersUpTo(alone, layerOf, 3);
    TwoThinLayers(Layer(1, alone), Layer(1, alone));
  }

  /** The walk through the star goes back a layer: its first set holds both exercises of the first
      type, and the set after it the one of the second type, in layer 1. */
  lemma WalkCanStepBack(row: StarRows, types: Types)
    requires types("m") == ["a", "b"] && row.unit == "u"
    requires StarBuilt(row, ExampleBuilt(), types, [OnP("1"), OnQ("2"), OnP("3")], ExamplePoints(), TwoPoints())
    ensures exists layerOf ::
              StarLayers(ExampleBuilt().stars["u"], TwoPoints(), layerOf) && !WalkClimbs(row.sets, LayerBy(layerOf))
  {
    var built, exercises := ExampleBuilt(), [OnP("1"), OnQ("2"), OnP("3")];
    var layerOf :| BuiltFrom(row, layerOf, built, types, exercises, ExamplePoints(), TwoPoints());
    ExampleLayers(layerOf);
    ExampleFiled(OnP("1"), OnQ("2"), OnP("3"));
    TwoInOneStage(OnP("1"), OnQ("2"), layerOf);
    OneInOneStage(OnP("3"), layerOf);
    var table := TableOf(built, exercises, ExamplePoints(), "u", ["a", "b"], layerOf);
    assert table[0] == [Stage(1, 2, [OnP("1"), OnQ("2")])] && table[1] == [Stage(1, 1, [OnP("3")])];
    assert Overlap(table, 0, 0, 1, 0);
    FewStages(table);
    StarWalk(row, layerOf, built, types, exercises, ExamplePoints(), TwoPoints());
  }

  lemma FewStages(table: seq<seq<Stage<Exercise>>>)
    requires |table| == 2 && |table[0]| == |table[1]| == 1
    requires |table[0][0].exercises| <= 100 && |table[1][0].exercises| <= 100
    ensures FewEnough(table)
  {
    forall t, s | 0 <= t < |table| && 0 <= s < |table[t]| ensures |table[t][s].exercises| <= 100 {
      assert s == 0 && (t == 0 || t == 1);
    }
  }
}
