/** The practice sets of one small star in `scripts/knowledge_base_import.py`, and the order in
    which a student walks through them. */
module CurriculumWalk {
  import opened Lists
  import opened Division
  import opened CurriculumStages

  /** One practice set: part `part` of a stage of a question type, with its place in the star. */
  datatype PracticeSet<E> = PracticeSet(questionType: nat, first: int, part: nat, order: int, exercises: seq<E>)

  function SetAt<E>(questionType: nat, stage: Stage<E>, p: nat): PracticeSet<E>
    requires p < |Parts(stage.exercises)|
  {
    PracticeSet(questionType, stage.first, p + 1, stage.first * 100 + questionType * 10 + (p + 1),
                Parts(stage.exercises)[p])
  }

  /** A stage cut into its practice sets. */
  function CutStage<E>(questionType: nat, stage: Stage<E>): (sets: seq<PracticeSet<E>>)
    ensures |sets| == |Parts(stage.exercises)|
  {
    seq(|Parts(stage.exercises)|, p requires 0 <= p < |Parts(stage.exercises)| => SetAt(questionType, stage, p))
  }

  /** The sets of a stage are its parts, numbered from 1, and their places follow one another; the place
      before the first is made of the stage's first layer and the question type. */
  lemma SetsFollow<E>(questionType: nat, stage: Stage<E>)
    ensures var sets := CutStage(questionType, stage);
            && Joined(Parts(stage.exercises)) == stage.exercises
            && forall p :: 0 <= p < |sets| ==>
                 && sets[p].exercises == Parts(stage.exercises)[p] && sets[p].part == p + 1
                 && sets[p].first == stage.first && sets[p].questionType == questionType
                 && sets[p].order == (stage.first * 10 + questionType) * 10 + sets[p].part
  {
    PartsAreEven(stage.exercises);
  }

  function CutStages<E>(questionType: nat, stages: seq<Stage<E>>): seq<PracticeSet<E>> {
    if |stages| == 0 then []
    else
      var n := |stages| - 1;
      CutStages(questionType, stages[..n]) + CutStage(questionType, stages[n])
  }

  /** The sets of a star: its question types in catalogue order, each with its stages. */
  function StarSets<E>(table: seq<seq<Stage<E>>>): seq<PracticeSet<E>> {
    if |table| == 0 then []
    else
      var n := |table| - 1;
      StarSets(table[..n]) + CutStages(n, table[n])
  }

  ghost predicate IsSetOf<E>(r: PracticeSet<E>, questionType: nat, stages: seq<Stage<E>>, s: nat, p: nat) {
    s < |stages| && p < |Parts(stages[s].exercises)| && r == SetAt(questionType, stages[s], p)
  }

  lemma {:induction false} StageSetIsCut<E>(questionType: nat, stages: seq<Stage<E>>, s: nat, r: PracticeSet<E>)
    requires s < |stages| && r in CutStage(questionType, stages[s])
    ensures r in CutStages(questionType, stages)
  {
    if s < |stages| - 1 {
      StageSetIsCut(questionType, stages[..|stages| - 1], s, r);
    }
  }

  lemma {:induction false} CutSetHasStage<E>(questionType: nat, stages: seq<Stage<E>>, r: PracticeSet<E>)
    returns (s: nat)
    requires r in CutStages(questionType, stages)
    ensures s < |stages| && r in CutStage(questionType, stages[s])
  {
    s := |stages| - 1;
    if r !in CutStage(questionType, stages[s]) {
      s := CutSetHasStage(questionType, stages[..s], r);
    }
  }

  lemma StageSetsAre<E>(questionType: nat, stages: seq<Stage<E>>, r: PracticeSet<E>)
    ensures r in CutStages(questionType, stages) <==> exists s: nat, p: nat :: IsSetOf(r, questionType, stages, s, p)
  {
    if r in CutStages(questionType, stages) {
      var s := CutSetHasStage(questionType, stages, r);
      OneStageSetsAre(questionType, stages[s], r);
      var p: nat :| p < |Parts(stages[s].exercises)| && r == SetAt(questionType, stages[s], p);
      assert IsSetOf(r, questionType, stages, s, p);
    }
    if s: nat, p: nat :| IsSetOf(r, questionType, stages, s, p) {
      OneStageSetsAre(questionType, stages[s], r);
      StageSetIsCut(questionType, stages, s, r);
    }
  }

  lemma OneStageSetsAre<E>(questionType: nat, stage: Stage<E>, r: PracticeSet<E>)
    ensures r in CutStage(questionType, stage)
            <==> exists p: nat :: p < |Parts(stage.exercises)| && r == SetAt(questionType, stage, p)
  {
    var sets := CutStage(questionType, stage);
    assert forall p: nat :: p < |sets| ==> sets[p] == SetAt(questionType, stage, p);
  }

  ghost predicate IsSetIn<E>(r: PracticeSet<E>, table: seq<seq<Stage<E>>>, t: nat, s: nat, p: nat) {
    t < |table| && IsSetOf(r, t, table[t], s, p)
  }

  lemma {:induction false} StarSetsAre<E>(table: seq<seq<Stage<E>>>, r: PracticeSet<E>)
    ensures r in StarSets(table) <==> exists t: nat, s: nat, p: nat :: IsSetIn(r, table, t, s, p)
  {
    if |table| > 0 {
      var n := |table| - 1;
      StarSetsAre(table[..n], r);
      StageSetsAre(n, table[n], r);
      if r in StarSets(table[..n]) {
        var t: nat, s: nat, p: nat :| IsSetIn(r, table[..n], t, s, p);
        assert IsSetIn(r, table, t, s, p);
      } else if r in CutStages(n, table[n]) {
        var s: nat, p: nat :| IsSetOf(r, n, table[n], s, p);
        assert IsSetIn(r, table, n, s, p);
      } else {
        forall t: nat, s: nat, p: nat ensures !IsSetIn(r, table, t, s, p) {
          if t < n {
            assert !IsSetIn(r, table[..n], t, s, p);
          }
        }
      }
    }
  }

  // ── Layers along a stage ────────────────────────────────────────────────────

  /** Exercises in layer order. */
  ghost predicate Climbs<E(!new)>(exercises: seq<E>, layerOf: E -> int) {
    forall i, j :: 0 <= i < j < |exercises| ==> layerOf(exercises[i]) <= layerOf(exercises[j])
  }

  /** Exercises in layer order, from the stage's first layer to its last. */
  ghost predicate Spans<E(!new)>(stage: Stage<E>, layerOf: E -> int) {
    && |stage.exercises| > 0
    && Climbs(stage.exercises, layerOf)
    && layerOf(stage.exercises[0]) == stage.first
    && layerOf(stage.exercises[|stage.exercises| - 1]) == stage.last
  }

  /** Every layer holds exercises, all of that layer. */
  ghost predicate Layered<E(!new)>(layers: seq<Layer<E>>, layerOf: E -> int) {
    && Ascending(layers)
    && forall k :: 0 <= k < |layers| ==> OneLayerOnly(layers[k], layerOf)
  }

  ghost predicate OneLayerOnly<E(!new)>(layer: Layer<E>, layerOf: E -> int) {
    |layer.exercises| > 0 && forall i :: 0 <= i < |layer.exercises| ==> layerOf(layer.exercises[i]) == layer.index
  }

  /** A run of layers spans from its first layer to its last. */
  lemma {:induction false} RunSpans<E(!new)>(run: seq<Layer<E>>, layerOf: E -> int)
    requires |run| > 0 && Layered(run, layerOf)
    ensures Spans(RunOf(run), layerOf)
  {
    var n := |run| - 1;
    var last := run[n];
    assert OneLayerOnly(last, layerOf);
    if n == 0 {
      assert AllOf(run[..0]) == [];
      assert AllOf(run) == last.exercises;
    } else {
      RunSpans(run[..n], layerOf);
      SpansOn(RunOf(run[..n]), last, layerOf);
      assert AllOf(run) == AllOf(run[..n]) + last.exercises;
    }
  }

  /** A span goes on over a higher layer. */
  lemma SpansOn<E(!new)>(stage: Stage<E>, layer: Layer<E>, layerOf: E -> int)
    requires Spans(stage, layerOf) && OneLayerOnly(layer, layerOf) && stage.last < layer.index
    ensures Spans(Stage(stage.first, layer.index, stage.exercises + layer.exercises), layerOf)
  {
    var before := stage.exercises;
    forall i | 0 <= i < |before| ensures layerOf(before[i]) <= layer.index {
      if i < |before| - 1 {
        assert layerOf(before[i]) <= layerOf(before[|before| - 1]);
      }
    }
  }

  /** Each stage spans its run of layers. */
  lemma {:induction false} StagesSpan<E(!new)>(layers: seq<Layer<E>>, stages: seq<Stage<E>>, layerOf: E -> int)
    requires Staged(layers, stages) && Layered(layers, layerOf)
    ensures forall k :: 0 <= k < |stages| ==> Spans(stages[k], layerOf)
    decreases |stages|
  {
    if |stages| > 0 {
      var n := |stages| - 1;
      var cut: nat :| cut < |layers| && LastRun(layers, stages, cut);
      StagesSpan(layers[..cut], stages[..n], layerOf);
      assert forall k :: 0 <= k < n ==> stages[..n][k] == stages[k];
      RunSpans(layers[cut..], layerOf);
    }
  }

  // ── Layers along the parts of a stage ───────────────────────────────────────

  lemma {:induction false} PartWithin<E(!new)>(parts: seq<seq<E>>, p: nat, x: E)
    requires p < |parts| && x in parts[p]
    ensures x in Joined(parts)
  {
    JoinedFromFirst(parts);
    if p > 0 {
      PartWithin(parts[1..], p - 1, x);
    }
  }

  lemma ClimbingHalves<E(!new)>(a: seq<E>, b: seq<E>, layerOf: E -> int)
    requires Climbs(a + b, layerOf)
    ensures Climbs(a, layerOf) && Climbs(b, layerOf)
    ensures forall x, y :: x in a && y in b ==> layerOf(x) <= layerOf(y)
  {
    var s := a + b;
    forall i, j | 0 <= i < j < |a| ensures layerOf(a[i]) <= layerOf(a[j]) {
      assert s[i] == a[i] && s[j] == a[j];
    }
    forall i, j | 0 <= i < j < |b| ensures layerOf(b[i]) <= layerOf(b[j]) {
      assert s[|a| + i] == b[i] && s[|a| + j] == b[j];
    }
    forall x, y | x in a && y in b ensures layerOf(x) <= layerOf(y) {
      var i :| 0 <= i < |a| && a[i] == x;
      var j :| 0 <= j < |b| && b[j] == y;
      assert s[i] == x && s[|a| + j] == y;
    }
  }

  /** The parts of exercises in layer order are in layer order, one after the other. */
  lemma {:induction false} PartsClimb<E(!new)>(parts: seq<seq<E>>, layerOf: E -> int)
    requires Climbs(Joined(parts), layerOf)
    ensures forall p :: 0 <= p < |parts| ==> Climbs(parts[p], layerOf)
    ensures forall p, q, x, y :: 0 <= p < q < |parts| && x in parts[p] && y in parts[q] ==> layerOf(x) <= layerOf(y)
  {
    if |parts| > 0 {
      JoinedFromFirst(parts);
      ClimbingHalves(parts[0], Joined(parts[1..]), layerOf);
      PartsClimb(parts[1..], layerOf);
      forall p, q, x, y | 0 <= p < q < |parts| && x in parts[p] && y in parts[q] ensures layerOf(x) <= layerOf(y) {
        if p == 0 {
          PartWithin(parts[1..], q - 1, y);
        } else {
          assert x in parts[1..][p - 1] && y in parts[1..][q - 1];
        }
      }
    }
  }

  /** The exercise at each end of the joined parts. */
  lemma {:induction false} JoinedEnds<E>(parts: seq<seq<E>>)
    requires |parts| > 0 && forall p :: 0 <= p < |parts| ==> |parts[p]| > 0
    ensures |Joined(parts)| > 0 && Joined(parts)[0] == parts[0][0]
    ensures var last := parts[|parts| - 1]; Joined(parts)[|Joined(parts)| - 1] == last[|last| - 1]
  {
    JoinedFromFirst(parts);
  }

  /** Parts in layer order, one after the other, from the first layer of a stage to its last. */
  ghost predicate PartsSpanning<E(!new)>(parts: seq<seq<E>>, stage: Stage<E>, layerOf: E -> int) {
    && |parts| > 0
    && (forall p :: 0 <= p < |parts| ==> |parts[p]| > 0)
    && (forall p :: 0 <= p < |parts| ==> Climbs(parts[p], layerOf))
    && (forall p, q, x, y :: 0 <= p < q < |parts| && x in parts[p] && y in parts[q] ==> layerOf(x) <= layerOf(y))
    && layerOf(parts[0][0]) == stage.first
    && layerOf(parts[|parts| - 1][|parts[|parts| - 1]| - 1]) == stage.last
  }

  lemma JoinedSpan<E(!new)>(parts: seq<seq<E>>, stage: Stage<E>, layerOf: E -> int)
    requires Spans(stage, layerOf) && Joined(parts) == stage.exercises
    requires |parts| > 0 && forall p :: 0 <= p < |parts| ==> |parts[p]| > 0
    ensures PartsSpanning(parts, stage, layerOf)
  {
    PartsClimb(parts, layerOf);
    JoinedEnds(parts);
  }

  lemma PartsHold<E>(exercises: seq<E>)
    requires |exercises| > 0
    ensures |Parts(exercises)| > 0 && forall p :: 0 <= p < |Parts(exercises)| ==> |Parts(exercises)[p]| > 0
    ensures |exercises| <= 100 ==> |Parts(exercises)| <= 10
  {
    PartsAreEven(exercises);
    assert CeilingDivide(|exercises|, EXERCISES_PER_SET) > 0;
  }

  /** What cutting a stage keeps. */
  lemma PartsSpan<E(!new)>(stage: Stage<E>, layerOf: E -> int)
    requires Spans(stage, layerOf)
    ensures PartsSpanning(Parts(stage.exercises), stage, layerOf)
  {
    PartsHold(stage.exercises);
    PartsAreEven(stage.exercises);
    JoinedSpan(Parts(stage.exercises), stage, layerOf);
  }

  /** Every exercise of a part lies within the layers of its stage. */
  lemma PartWithinStage<E(!new)>(stage: Stage<E>, layerOf: E -> int, p: nat, x: E)
    requires Spans(stage, layerOf) && p < |Parts(stage.exercises)| && x in Parts(stage.exercises)[p]
    ensures stage.first <= layerOf(x) <= stage.last
  {
    PartsAreEven(stage.exercises);
    PartWithin(Parts(stage.exercises), p, x);
    var i :| 0 <= i < |stage.exercises| && stage.exercises[i] == x;
    assert i > 0 ==> layerOf(stage.exercises[0]) <= layerOf(x);
    assert i < |stage.exercises| - 1 ==> layerOf(x) <= layerOf(stage.exercises[|stage.exercises| - 1]);
  }

  // ── The walk ────────────────────────────────────────────────────────────────

  /** Every question type is staged over the layers of its own exercises, in at most ten types and
      at most ten sets, a hundred exercises, per stage: what keeps the places of a star apart. */
  ghost predicate StagedTable<E(!new)>(table: seq<seq<Stage<E>>>, layerOf: E -> int) {
    && |table| <= 10
    && (forall t :: 0 <= t < |table| ==> InOrder(table[t]))
    && (forall t, s :: 0 <= t < |table| && 0 <= s < |table[t]| ==>
          Spans(table[t][s], layerOf) && |table[t][s].exercises| <= 100)
  }

  /** Going from set `a` on to set `b` never leads back to a lower layer. */
  ghost predicate GoesUp<E(!new)>(a: PracticeSet<E>, b: PracticeSet<E>, layerOf: E -> int) {
    forall x, y :: x in a.exercises && y in b.exercises ==> layerOf(x) <= layerOf(y)
  }

  /** Walked by place, the sets visit their exercises in non-decreasing layer. */
  ghost predicate WalkClimbs<E(!new)>(sets: seq<PracticeSet<E>>, layerOf: E -> int) {
    && (forall a :: a in sets ==> Climbs(a.exercises, layerOf))
    && (forall a, b :: a in sets && b in sets && a.order < b.order ==> GoesUp(a, b, layerOf))
  }

  /** A place is the stage's first layer, then the question type, then the part. */
  ghost predicate Before(first: int, t: nat, part: nat, first': int, t': nat, part': nat) {
    first < first' || (first == first' && (t < t' || (t == t' && part < part')))
  }

  lemma PlacesAreLexicographic(first: int, t: nat, part: nat, first': int, t': nat, part': nat)
    requires t < 10 && t' < 10 && 1 <= part <= 10 && 1 <= part' <= 10
    ensures first * 100 + t * 10 + part < first' * 100 + t' * 10 + part' <==> Before(first, t, part, first', t', part')
    ensures first * 100 + t * 10 + part == first' * 100 + t' * 10 + part'
            <==> first == first' && t == t' && part == part'
  {
  }

  /** No two sets of a star share a place. */
  lemma PlacesDiffer<E(!new)>(table: seq<seq<Stage<E>>>, layerOf: E -> int, a: PracticeSet<E>, b: PracticeSet<E>)
    requires StagedTable(table, layerOf) && a in StarSets(table) && b in StarSets(table) && a.order == b.order
    ensures a == b
  {
    StarSetsAre(table, a);
    StarSetsAre(table, b);
    var t: nat, s: nat, p: nat :| IsSetIn(a, table, t, s, p);
    var u: nat, v: nat, q: nat :| IsSetIn(b, table, u, v, q);
    PlacesCompare(table, layerOf, t, s, p, u, v, q);
    FirstDecides(table[t], s, v);
  }

  /** The places of two sets of a star compare by first layer, question type and part. */
  lemma PlacesCompare<E(!new)>(table: seq<seq<Stage<E>>>, layerOf: E -> int, t: nat, s: nat, p: nat,
                               u: nat, v: nat, q: nat)
    requires StagedTable(table, layerOf)
    requires t < |table| && s < |table[t]| && p < |Parts(table[t][s].exercises)|
    requires u < |table| && v < |table[u]| && q < |Parts(table[u][v].exercises)|
    ensures var from, to := table[t][s].first, table[u][v].first;
            && (from * 100 + t * 10 + (p + 1) < to * 100 + u * 10 + (q + 1) <==> Before(from, t, p + 1, to, u, q + 1))
            && (from * 100 + t * 10 + (p + 1) == to * 100 + u * 10 + (q + 1) <==> from == to && t == u && p == q)
  {
    PartsHold(table[t][s].exercises);
    PartsHold(table[u][v].exercises);
    PlacesAreLexicographic(table[t][s].first, t, p + 1, table[u][v].first, u, q + 1);
  }

  lemma FirstDecides<E>(stages: seq<Stage<E>>, s: nat, v: nat)
    requires InOrder(stages) && s < |stages|
    ensures v < |stages| && stages[s].first == stages[v].first ==> s == v
    ensures v < |stages| && stages[s].first < stages[v].first ==> s < v && stages[s].last < stages[v].first
  {
    if v < |stages| {
      if s < v {
        assert stages[s].last < stages[v].first;
      } else if v < s {
        assert stages[v].last < stages[s].first;
      }
    }
  }

  /** A stage of one type that reaches past the start of a later set of another type. */
  ghost predicate Overlap<E>(table: seq<seq<Stage<E>>>, t: nat, s: nat, u: nat, v: nat) {
    && t < |table| && s < |table[t]| && u < |table| && v < |table[u]|
    && t != u
    && (table[t][s].first < table[u][v].first || (table[t][s].first == table[u][v].first && t < u))
    && table[u][v].first < table[t][s].last
  }

  /** Within one question type the walk always climbs. */
  lemma TypeWalkClimbs<E(!new)>(table: seq<seq<Stage<E>>>, layerOf: E -> int, a: PracticeSet<E>, b: PracticeSet<E>)
    requires StagedTable(table, layerOf) && a in StarSets(table) && b in StarSets(table)
    requires a.questionType == b.questionType && a.order < b.order
    ensures GoesUp(a, b, layerOf)
  {
    StarSetsAre(table, a);
    StarSetsAre(table, b);
    var t: nat, s: nat, p: nat :| IsSetIn(a, table, t, s, p);
    var u: nat, v: nat, q: nat :| IsSetIn(b, table, u, v, q);
    PlacesCompare(table, layerOf, t, s, p, u, v, q);
    FirstDecides(table[t], s, v);
    if s == v {
      PartsSpan(table[t][s], layerOf);
    } else {
      StagesClimb(table[t][s], table[t][v], layerOf, p, q);
    }
  }

  lemma StagesClimb<E(!new)>(from: Stage<E>, to: Stage<E>, layerOf: E -> int, p: nat, q: nat)
    requires Spans(from, layerOf) && Spans(to, layerOf) && from.last <= to.first
    requires p < |Parts(from.exercises)| && q < |Parts(to.exercises)|
    ensures forall x, y :: x in Parts(from.exercises)[p] && y in Parts(to.exercises)[q] ==> layerOf(x) <= layerOf(y)
  {
    forall x, y | x in Parts(from.exercises)[p] && y in Parts(to.exercises)[q] ensures layerOf(x) <= layerOf(y) {
      PartWithinStage(from, layerOf, p, x);
      PartWithinStage(to, layerOf, q, y);
    }
  }

  /** Walking a star by place goes up through its layers exactly when no stage of one question type
      reaches past the start of a later set of another. */
  lemma WalkClimbsIff<E(!new)>(table: seq<seq<Stage<E>>>, layerOf: E -> int)
    requires StagedTable(table, layerOf)
    ensures WalkClimbs(StarSets(table), layerOf) <==> forall t, s, u, v :: !Overlap(table, t, s, u, v)
  {
    if forall t, s, u, v :: !Overlap(table, t, s, u, v) {
      forall a | a in StarSets(table) ensures Climbs(a.exercises, layerOf) {
        SetClimbs(table, layerOf, a);
      }
      forall a, b | a in StarSets(table) && b in StarSets(table) && a.order < b.order ensures GoesUp(a, b, layerOf) {
        if a.questionType == b.questionType {
          TypeWalkClimbs(table, layerOf, a, b);
        } else {
          TypesClimb(table, layerOf, a, b);
        }
      }
    } else {
      var t, s, u, v :| Overlap(table, t, s, u, v);
      OverlapStepsBack(table, layerOf, t, s, u, v);
    }
  }

  lemma SetClimbs<E(!new)>(table: seq<seq<Stage<E>>>, layerOf: E -> int, a: PracticeSet<E>)
    requires StagedTable(table, layerOf) && a in StarSets(table)
    ensures Climbs(a.exercises, layerOf)
  {
    StarSetsAre(table, a);
    var t: nat, s: nat, p: nat :| IsSetIn(a, table, t, s, p);
    PartsSpan(table[t][s], layerOf);
  }

  lemma TypesClimb<E(!new)>(table: seq<seq<Stage<E>>>, layerOf: E -> int, a: PracticeSet<E>, b: PracticeSet<E>)
    requires StagedTable(table, layerOf) && forall t, s, u, v :: !Overlap(table, t, s, u, v)
    requires a in StarSets(table) && b in StarSets(table) && a.questionType != b.questionType && a.order < b.order
    ensures GoesUp(a, b, layerOf)
  {
    StarSetsAre(table, a);
    StarSetsAre(table, b);
    var t: nat, s: nat, p: nat :| IsSetIn(a, table, t, s, p);
    var u: nat, v: nat, q: nat :| IsSetIn(b, table, u, v, q);
    PlacesCompare(table, layerOf, t, s, p, u, v, q);
    assert !Overlap(table, t, s, u, v);
    StagesClimb(table[t][s], table[u][v], layerOf, p, q);
  }

  /** The first and the last set of a stage, with an exercise of its first and of its last layer. */
  lemma EndSets<E(!new)>(table: seq<seq<Stage<E>>>, layerOf: E -> int, t: nat, s: nat)
    returns (a: PracticeSet<E>, b: PracticeSet<E>)
    requires StagedTable(table, layerOf) && t < |table| && s < |table[t]|
    ensures a in StarSets(table) && b in StarSets(table)
    ensures |a.exercises| > 0 && layerOf(a.exercises[0]) == table[t][s].first
    ensures |b.exercises| > 0 && layerOf(b.exercises[|b.exercises| - 1]) == table[t][s].last
    ensures 1 <= b.part <= 10 && a.order == table[t][s].first * 100 + t * 10 + 1
    ensures b.order == table[t][s].first * 100 + t * 10 + b.part
  {
    var stage := table[t][s];
    PartsSpan(stage, layerOf);
    PartsHold(stage.exercises);
    ghost var parts := Parts(stage.exercises);
    a, b := SetAt(t, stage, 0), SetAt(t, stage, |parts| - 1);
    assert IsSetIn(a, table, t, s, 0) && IsSetIn(b, table, t, s, |parts| - 1);
    StarSetsAre(table, a);
    StarSetsAre(table, b);
  }

  /** After the last set of a stage that reaches too far comes a set that starts in a lower layer. */
  lemma OverlapStepsBack<E(!new)>(table: seq<seq<Stage<E>>>, layerOf: E -> int, t: nat, s: nat, u: nat, v: nat)
    requires StagedTable(table, layerOf) && Overlap(table, t, s, u, v)
    ensures !WalkClimbs(StarSets(table), layerOf)
  {
    var _, a := EndSets(table, layerOf, t, s);
    var b, _ := EndSets(table, layerOf, u, v);
    PlacesAreLexicographic(table[t][s].first, t, a.part, table[u][v].first, u, 1);
    var x, y := a.exercises[|a.exercises| - 1], b.exercises[0];
    assert x in a.exercises && y in b.exercises;
    assert !GoesUp(a, b, layerOf);
  }
}
