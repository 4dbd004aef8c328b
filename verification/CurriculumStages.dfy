/** Cutting a small star's exercises in `scripts/knowledge_base_import.py`: layers joined into
    stages, and stages cut into practice sets. */
module CurriculumStages {
  import opened Lists
  import opened Division

  const EXERCISES_PER_SET: nat := 10
  const MIN_EXERCISES_PER_SET: nat := 3

  /** The exercises of one layer. */
  datatype Layer<E> = Layer(index: int, exercises: seq<E>)

  /** A run of layers worked through together. */
  datatype Stage<E> = Stage(first: int, last: int, exercises: seq<E>)

  ghost predicate Ascending<E>(layers: seq<Layer<E>>) {
    forall i, j :: 0 <= i < j < |layers| ==> layers[i].index < layers[j].index
  }

  function AllOf<E>(layers: seq<Layer<E>>): seq<E> {
    if |layers| == 0 then [] else AllOf(layers[..|layers| - 1]) + layers[|layers| - 1].exercises
  }

  function AllStaged<E>(stages: seq<Stage<E>>): seq<E> {
    if |stages| == 0 then [] else AllStaged(stages[..|stages| - 1]) + stages[|stages| - 1].exercises
  }

  lemma {:induction false} AllOfAppends<E>(a: seq<Layer<E>>, b: seq<Layer<E>>)
    ensures AllOf(a + b) == AllOf(a) + AllOf(b)
  {
    if |b| == 0 {
      assert a + b == a;
    } else {
      AllOfAppends(a, b[..|b| - 1]);
      assert (a + b)[..|a + b| - 1] == a + b[..|b| - 1];
    }
  }

  /** A run of layers as one stage. */
  ghost function RunOf<E>(run: seq<Layer<E>>): Stage<E>
    requires |run| > 0
  {
    Stage(run[0].index, run[|run| - 1].index, AllOf(run))
  }

  /** The stages are runs of layers, one after the other, that together are all the layers. */
  ghost predicate Staged<E>(layers: seq<Layer<E>>, stages: seq<Stage<E>>)
    decreases |stages|
  {
    if |stages| == 0 then |layers| == 0
    else exists cut: nat :: cut < |layers| && LastRun(layers, stages, cut)
  }

  ghost predicate LastRun<E>(layers: seq<Layer<E>>, stages: seq<Stage<E>>, cut: nat)
    requires |stages| > 0 && cut < |layers|
    decreases |stages|, 0
  {
    stages[|stages| - 1] == RunOf(layers[cut..]) && Staged(layers[..cut], stages[..|stages| - 1])
  }

  predicate Thin<E>(stage: Stage<E>) {
    |stage.exercises| < MIN_EXERCISES_PER_SET
  }

  lemma OneLayer<E>(layer: Layer<E>)
    ensures RunOf([layer]) == Stage(layer.index, layer.index, layer.exercises)
  {
    assert [layer][..0] == [];
    assert AllOf<E>([]) == [];
  }

  lemma RunsJoin<E>(a: seq<Layer<E>>, b: seq<Layer<E>>)
    requires |a| > 0 && |b| > 0
    ensures RunOf(a + b) == Stage(RunOf(a).first, RunOf(b).last, RunOf(a).exercises + RunOf(b).exercises)
  {
    AllOfAppends(a, b);
  }

  /** The last stage takes in one more layer. */
  lemma LastTakesIn<E>(layers: seq<Layer<E>>, stages: seq<Stage<E>>, layer: Layer<E>)
    requires |stages| > 0 && Staged(layers, stages)
    ensures var last := stages[|stages| - 1];
            Staged(layers + [layer],
                   stages[|stages| - 1 := Stage(last.first, layer.index, last.exercises + layer.exercises)])
  {
    var n := |stages| - 1;
    var cut: nat :| cut < |layers| && LastRun(layers, stages, cut);
    OneLayer(layer);
    RunsJoin(layers[cut..], [layer]);
    var more := layers + [layer];
    var grown := stages[n := Stage(stages[n].first, layer.index, stages[n].exercises + layer.exercises)];
    assert more[cut..] == layers[cut..] + [layer] && more[..cut] == layers[..cut];
    assert grown[..n] == stages[..n];
    assert LastRun(more, grown, cut);
  }

  /** One more layer becomes a stage of its own. */
  lemma NewStage<E>(layers: seq<Layer<E>>, stages: seq<Stage<E>>, layer: Layer<E>)
    requires Staged(layers, stages)
    ensures Staged(layers + [layer], stages + [Stage(layer.index, layer.index, layer.exercises)])
  {
    var more, grown := layers + [layer], stages + [Stage(layer.index, layer.index, layer.exercises)];
    OneLayer(layer);
    assert more[|layers|..] == [layer] && more[..|layers|] == layers;
    assert grown[..|stages|] == stages;
    assert LastRun(more, grown, |layers|);
  }

  /** The last stage joins the one before it. */
  lemma LastJoins<E>(layers: seq<Layer<E>>, stages: seq<Stage<E>>)
    requires |stages| > 1 && Staged(layers, stages)
    ensures var n := |stages| - 1;
            var held, before := stages[n], stages[n - 1];
            Staged(layers, stages[..n - 1] + [Stage(before.first, held.last, before.exercises + held.exercises)])
  {
    var n := |stages| - 1;
    var held, before := stages[n], stages[n - 1];
    var cut: nat :| cut < |layers| && LastRun(layers, stages, cut);
    assert Staged(layers[..cut], stages[..n]);
    var mid: nat :| mid < cut && LastRun(layers[..cut], stages[..n], mid);
    RunsJoin(layers[..cut][mid..], layers[cut..]);
    assert layers[mid..] == layers[..cut][mid..] + layers[cut..];
    var joined := stages[..n - 1] + [Stage(before.first, held.last, before.exercises + held.exercises)];
    assert joined[..n - 1] == stages[..n][..n - 1];
    assert layers[..cut][..mid] == layers[..mid];
    assert LastRun(layers, joined, mid);
  }

  // ── The stages ──────────────────────────────────────────────────────────────

  /** A thin last stage takes in the next layer, which else starts a stage of its own. */
  function Grown<E>(stages: seq<Stage<E>>, layer: Layer<E>): seq<Stage<E>> {
    var last := |stages| - 1;
    if last >= 0 && Thin(stages[last])
    then stages[last := Stage(stages[last].first, layer.index, stages[last].exercises + layer.exercises)]
    else stages + [Stage(layer.index, layer.index, layer.exercises)]
  }

  function Growing<E>(layers: seq<Layer<E>>): seq<Stage<E>> {
    if |layers| == 0 then [] else Grown(Growing(layers[..|layers| - 1]), layers[|layers| - 1])
  }

  /** A thin last stage joins the one before it. */
  function Closed<E>(stages: seq<Stage<E>>): seq<Stage<E>> {
    var last := |stages| - 1;
    if last > 0 && Thin(stages[last])
    then stages[..last - 1]
         + [Stage(stages[last - 1].first, stages[last].last, stages[last - 1].exercises + stages[last].exercises)]
    else stages
  }

  /** The stages of a star's layers. */
  function StagesOf<E>(layers: seq<Layer<E>>): seq<Stage<E>> {
    Closed(Growing(layers))
  }

  method Stages<E>(layers: seq<Layer<E>>) returns (stages: seq<Stage<E>>)
    ensures stages == StagesOf(layers)
  {
    stages := [];
    for n := 0 to |layers|
      invariant stages == Growing(layers[..n])
    {
      assert layers[..n + 1][..n] == layers[..n];
      var last := |stages| - 1;
      if last >= 0 && Thin(stages[last]) {
        var held := stages[last];
        stages := stages[last := Stage(held.first, layers[n].index, held.exercises + layers[n].exercises)];
      } else {
        stages := stages + [Stage(layers[n].index, layers[n].index, layers[n].exercises)];
      }
    }
    assert layers[..|layers|] == layers;
    var last := |stages| - 1;
    if last > 0 && Thin(stages[last]) {
      var held, before := stages[last], stages[last - 1];
      stages := stages[..last - 1] + [Stage(before.first, held.last, before.exercises + held.exercises)];
    }
  }

  lemma {:induction false} GrowingIsStaged<E>(layers: seq<Layer<E>>)
    ensures Staged(layers, Growing(layers))
    ensures forall k :: 0 <= k < |Growing(layers)| - 1 ==> !Thin(Growing(layers)[k])
  {
    if |layers| > 0 {
      var n := |layers| - 1;
      var stages := Growing(layers[..n]);
      GrowingIsStaged(layers[..n]);
      assert layers == layers[..n] + [layers[n]];
      if |stages| > 0 && Thin(stages[|stages| - 1]) {
        LastTakesIn(layers[..n], stages, layers[n]);
      } else {
        NewStage(layers[..n], stages, layers[n]);
      }
    }
  }

  /** The stages are runs of layers that together are all the layers, and none is thin but a single one. */
  lemma StagesAreRuns<E>(layers: seq<Layer<E>>)
    ensures Staged(layers, StagesOf(layers))
    ensures forall k :: 0 <= k < |StagesOf(layers)| && Thin(StagesOf(layers)[k]) ==> |StagesOf(layers)| == 1
  {
    var stages := Growing(layers);
    GrowingIsStaged(layers);
    var last := |stages| - 1;
    if last > 0 && Thin(stages[last]) {
      LastJoins(layers, stages);
    }
  }

  // ── Which stages these are ──────────────────────────────────────────────────

  /** A run that took in its last layer while it still held fewer than three exercises. */
  ghost predicate TookWhileThin<E>(run: seq<Layer<E>>) {
    |run| > 0 && |AllOf(run[..|run| - 1])| < MIN_EXERCISES_PER_SET
  }

  /** The layers cut into runs, each taking in another layer only while it holds fewer than three
      exercises, and the next one starting only when it holds three. */
  ghost predicate CutWhenFull<E>(layers: seq<Layer<E>>, runs: seq<seq<Layer<E>>>) {
    && Joined(runs) == layers
    && (forall k :: 0 <= k < |runs| ==> TookWhileThin(runs[k]))
    && (forall k :: 0 <= k < |runs| - 1 ==> |AllOf(runs[k])| >= MIN_EXERCISES_PER_SET)
  }

  ghost function AsStages<E>(runs: seq<seq<Layer<E>>>): (stages: seq<Stage<E>>)
    requires forall k :: 0 <= k < |runs| ==> |runs[k]| > 0
    ensures |stages| == |runs|
  {
    seq(|runs|, k requires 0 <= k < |runs| => RunOf(runs[k]))
  }

  /** A shorter run holds no more. */
  lemma ShorterRunHoldsLess<E>(run: seq<Layer<E>>)
    requires |run| > 0
    ensures |AllOf(run[..|run| - 1])| <= |AllOf(run)|
  {
  }

  lemma LastRunGrows<E>(runs: seq<seq<Layer<E>>>, layer: Layer<E>)
    requires |runs| > 0
    ensures Joined(runs[|runs| - 1 := runs[|runs| - 1] + [layer]]) == Joined(runs) + [layer]
  {
    var n := |runs| - 1;
    assert runs[n := runs[n] + [layer]][..n] == runs[..n];
  }

  lemma NewRun<E>(runs: seq<seq<Layer<E>>>, layer: Layer<E>)
    ensures Joined(runs + [[layer]]) == Joined(runs) + [layer]
  {
    assert (runs + [[layer]])[..|runs|] == runs;
  }

  /** The layers can be cut so. */
  lemma {:induction false} SomeCut<E>(layers: seq<Layer<E>>) returns (runs: seq<seq<Layer<E>>>)
    ensures CutWhenFull(layers, runs)
  {
    runs := [];
    if |layers| > 0 {
      var n := |layers| - 1;
      runs := SomeCut(layers[..n]);
      var last := |runs| - 1;
      assert layers == layers[..n] + [layers[n]];
      if last >= 0 && |AllOf(runs[last])| < MIN_EXERCISES_PER_SET {
        LastRunGrows(runs, layers[n]);
        assert (runs[last] + [layers[n]])[..|runs[last]|] == runs[last];
        runs := runs[last := runs[last] + [layers[n]]];
      } else {
        NewRun(runs, layers[n]);
        assert [layers[n]][..0] == [] && AllOf<E>([]) == [];
        runs := runs + [[layers[n]]];
      }
    }
  }

  /** And every such cut is the one the loop makes. */
  lemma {:induction false} CutIsGrowing<E>(layers: seq<Layer<E>>, runs: seq<seq<Layer<E>>>)
    requires CutWhenFull(layers, runs)
    ensures Growing(layers) == AsStages(runs)
    decreases |layers|, 1
  {
    if |runs| > 0 {
      var last, n := |runs| - 1, |layers| - 1;
      var run := runs[last];
      assert TookWhileThin(run) && layers[n] == run[|run| - 1];
      if |run| == 1 {
        LastRunIsNew(layers, runs);
      } else {
        LastRunTookIn(layers, runs);
      }
    }
  }

  lemma LastRunIsNew<E>(layers: seq<Layer<E>>, runs: seq<seq<Layer<E>>>)
    requires CutWhenFull(layers, runs) && |runs| > 0 && |runs[|runs| - 1]| == 1
    ensures Growing(layers) == AsStages(runs)
    decreases |layers|, 0
  {
    var last, n := |runs| - 1, |layers| - 1;
    assert runs[last] == [layers[n]] && Joined(runs[..last]) == layers[..n];
    assert forall k :: 0 <= k < last ==> runs[..last][k] == runs[k];
    CutIsGrowing(layers[..n], runs[..last]);
    OneLayer(layers[n]);
  }

  lemma LastRunTookIn<E>(layers: seq<Layer<E>>, runs: seq<seq<Layer<E>>>)
    requires CutWhenFull(layers, runs) && |runs| > 0 && |runs[|runs| - 1]| > 1
    ensures Growing(layers) == AsStages(runs)
    decreases |layers|, 0
  {
    var last, n := |runs| - 1, |layers| - 1;
    var run := runs[last];
    var before := run[..|run| - 1];
    var shorter := runs[last := before];
    assert TookWhileThin(run) && run == before + [layers[n]];
    ShorterRunHoldsLess(before);
    assert shorter[..last] == runs[..last] && Joined(shorter) == layers[..n];
    CutIsGrowing(layers[..n], shorter);
    OneLayer(layers[n]);
    RunsJoin(before, [layers[n]]);
  }

  /** So the stages are exactly these: the layers cut so, a thin last run joining the one before it. */
  lemma StagesAreExactly<E>(layers: seq<Layer<E>>, stages: seq<Stage<E>>)
    ensures stages == StagesOf(layers) <==> exists runs :: CutWhenFull(layers, runs) && stages == Closed(AsStages(runs))
  {
    if stages == StagesOf(layers) {
      var runs := SomeCut(layers);
      CutIsGrowing(layers, runs);
    }
    if runs :| CutWhenFull(layers, runs) && stages == Closed(AsStages(runs)) {
      CutIsGrowing(layers, runs);
    }
  }

  /** Nothing is lost or reordered: the stages hold the exercises of the layers, in layer order. */
  lemma {:induction false} StagesKeepOrder<E>(layers: seq<Layer<E>>, stages: seq<Stage<E>>)
    requires Staged(layers, stages)
    ensures AllStaged(stages) == AllOf(layers)
    decreases |stages|
  {
    if |stages| > 0 {
      var cut: nat :| cut < |layers| && LastRun(layers, stages, cut);
      StagesKeepOrder(layers[..cut], stages[..|stages| - 1]);
      assert layers == layers[..cut] + layers[cut..];
      AllOfAppends(layers[..cut], layers[cut..]);
    }
  }

  /** Runs in order: each from its first layer to its last, the next one strictly after. */
  ghost predicate InOrder<E>(stages: seq<Stage<E>>) {
    && (forall k :: 0 <= k < |stages| ==> stages[k].first <= stages[k].last)
    && (forall i, j :: 0 <= i < j < |stages| ==> stages[i].last < stages[j].first)
  }

  lemma OneMoreInOrder<E>(stages: seq<Stage<E>>, stage: Stage<E>)
    requires InOrder(stages) && stage.first <= stage.last
    requires |stages| > 0 ==> stages[|stages| - 1].last < stage.first
    ensures InOrder(stages + [stage])
  {
    var n := |stages|;
    forall i | 0 <= i < n ensures stages[i].last < stage.first {
      if i < n - 1 {
        assert stages[i].last < stages[n - 1].first <= stages[n - 1].last;
      }
    }
  }

  /** The stages are disjoint runs of layers, one after the other. */
  lemma {:induction false} StagesAreInOrder<E>(layers: seq<Layer<E>>, stages: seq<Stage<E>>)
    requires Staged(layers, stages) && Ascending(layers)
    ensures InOrder(stages)
    ensures |stages| > 0 ==> |layers| > 0 && stages[|stages| - 1].last == layers[|layers| - 1].index
    decreases |stages|
  {
    var n := |stages| - 1;
    if n >= 0 {
      var cut: nat :| cut < |layers| && LastRun(layers, stages, cut);
      StagesAreInOrder(layers[..cut], stages[..n]);
      assert stages[n].first == layers[cut].index && stages[n].last == layers[|layers| - 1].index;
      OneMoreInOrder(stages[..n], stages[n]);
      assert stages == stages[..n] + [stages[n]];
    }
  }

  ghost predicate Covers<E>(stages: seq<Stage<E>>, index: int) {
    exists k :: 0 <= k < |stages| && stages[k].first <= index <= stages[k].last
  }

  /** And together they cover every layer. */
  lemma {:induction false} StagesCover<E>(layers: seq<Layer<E>>, stages: seq<Stage<E>>, m: nat)
    requires Staged(layers, stages) && Ascending(layers) && m < |layers|
    ensures Covers(stages, layers[m].index)
    decreases |stages|
  {
    var n := |stages| - 1;
    var cut: nat :| cut < |layers| && LastRun(layers, stages, cut);
    if m < cut {
      StagesCover(layers[..cut], stages[..n], m);
      var k :| 0 <= k < n && stages[..n][k].first <= layers[m].index <= stages[..n][k].last;
      assert stages[k] == stages[..n][k];
    } else {
      assert stages[n].first <= layers[m].index <= stages[n].last;
    }
  }

  // ── Parts ───────────────────────────────────────────────────────────────────

  function Chunks<E>(s: seq<E>, size: nat): seq<seq<E>>
    requires size > 0
  {
    if |s| == 0 then [] else if |s| <= size then [s] else [s[..size]] + Chunks(s[size..], size)
  }

  /** Exercises cut into as few practice sets as they need, of even size. */
  function Parts<E>(exercises: seq<E>): seq<seq<E>> {
    var count := CeilingDivide(|exercises|, EXERCISES_PER_SET);
    var size := if count > 0 then CeilingDivide(|exercises|, count) else 0;
    if size > 0 then Chunks(exercises, size) else []
  }

  lemma {:induction false} ChunksJoin<E>(s: seq<E>, size: nat)
    requires size > 0
    ensures Joined(Chunks(s, size)) == s
  {
    if |s| > size {
      ChunksJoin(s[size..], size);
      assert s == s[..size] + s[size..];
      JoinedFromFirst(Chunks(s, size));
      assert Chunks(s, size)[1..] == Chunks(s[size..], size);
    } else if |s| > 0 {
      assert Chunks(s, size) == [s] && Chunks(s, size)[..0] == [];
    }
  }

  lemma {:induction false} ChunkSizes<E>(s: seq<E>, size: nat, count: nat)
    requires size > 0 && count > 0 && (count - 1) * size < |s| <= count * size
    ensures |Chunks(s, size)| == count
    ensures forall k :: 0 <= k < count - 1 ==> |Chunks(s, size)[k]| == size
    ensures |Chunks(s, size)[count - 1]| == |s| - (count - 1) * size
  {
    if |s| <= size {
      OnlyOne(count, size);
    } else {
      MoreThanOne(count, size, |s|);
      Steps(count, size);
      ChunkSizes(s[size..], size, count - 1);
    }
  }

  lemma OnlyOne(count: nat, size: nat)
    requires size > 0 && count > 0 && (count - 1) * size < size
    ensures count == 1
  {
    if count > 1 {
      Grows(count - 1, 1, size);
    }
  }

  lemma MoreThanOne(count: nat, size: nat, n: nat)
    requires size < n <= count * size
    ensures count > 1
  {
    if count <= 1 {
      Grows(1, count, size);
    }
  }

  lemma Grows(a: nat, b: nat, c: nat)
    requires a >= b
    ensures a * c >= b * c
  {
  }

  lemma Steps(count: nat, size: nat)
    requires count > 1
    ensures (count - 1) * size == (count - 2) * size + size && count * size == (count - 1) * size + size
  {
  }

  /** The size and number of parts for `n` exercises. */
  lemma SizeOfParts(n: nat)
    requires n > 0
    ensures var count := CeilingDivide(n, EXERCISES_PER_SET);
            var size := CeilingDivide(n, count);
            && count > 0 && 10 * (count - 1) < n <= 10 * count
            && 0 < size <= EXERCISES_PER_SET
            && (count - 1) * size < n <= count * size
            && count * size - n <= count - 1
  {
    var count := CeilingDivide(n, EXERCISES_PER_SET);
    var size := CeilingDivide(n, count);
    DivisionBounds(n + count - 1, count);
    assert count * size - n <= count - 1;
    if size > 10 {
      Grows(size, 11, count);
    }
    if size <= 9 {
      Grows(9, size, count);
    }
  }

  /** Exactly as many parts as sets of ten need, each of at most ten, together the exercises in
      order, all of one size but the last, which is short by less than the number of parts. */
  lemma PartsAreEven<E>(exercises: seq<E>)
    ensures Joined(Parts(exercises)) == exercises
    ensures |Parts(exercises)| == CeilingDivide(|exercises|, EXERCISES_PER_SET)
    ensures |exercises| > 0 ==>
              var parts := Parts(exercises);
              var size := |parts[0]|;
              && 0 < |parts[|parts| - 1]| <= size <= EXERCISES_PER_SET
              && (forall k :: 0 <= k < |parts| - 1 ==> |parts[k]| == size)
              && |parts[|parts| - 1]| >= size - (|parts| - 1)
  {
    var n := |exercises|;
    if n > 0 {
      var count := CeilingDivide(n, EXERCISES_PER_SET);
      var size := CeilingDivide(n, count);
      SizeOfParts(n);
      ChunksJoin(exercises, size);
      ChunkSizes(exercises, size, count);
      LastPart(n, count, size);
    }
  }

  lemma LastPart(n: nat, count: nat, size: nat)
    requires count > 0 && count * size - n <= count - 1
    ensures n - (count - 1) * size >= size - (count - 1)
    ensures count == 1 ==> (count - 1) * size == 0
  {
    assert count * size == (count - 1) * size + size;
  }

  /** The size of the last part for `n` exercises. */
  function LastSize(n: nat): int
    requires n > 0
  {
    var count := CeilingDivide(n, EXERCISES_PER_SET);
    n - (count - 1) * CeilingDivide(n, count)
  }

  lemma LastPartSize<E>(exercises: seq<E>)
    requires |exercises| > 0
    ensures |Parts(exercises)| > 0 && |Parts(exercises)[|Parts(exercises)| - 1]| == LastSize(|exercises|)
  {
    var n := |exercises|;
    var count := CeilingDivide(n, EXERCISES_PER_SET);
    SizeOfParts(n);
    ChunkSizes(exercises, CeilingDivide(n, count), count);
  }

  /** When the parts leave a question or two over: one or two exercises in all, or full sets of
      ten with a remainder of one or two. */
  predicate LeavesOver(n: nat) {
    n == 1 || n == 2 || (n % 10 == 1 && n >= 91) || (n % 10 == 2 && n >= 82)
  }

  /** "No part is a leftover question or two" holds exactly outside those numbers; the first of
      more than two exercises is 82. */
  lemma NoLeftoverIff<E>(exercises: seq<E>)
    ensures (forall k :: 0 <= k < |Parts(exercises)| ==> |Parts(exercises)[k]| >= 3) <==> !LeavesOver(|exercises|)
  {
    var n := |exercises|;
    if n > 0 {
      PartsAreEven(exercises);
      LastPartSize(exercises);
      LastSizeIff(n);
    }
  }

  lemma LastSizeIff(n: nat)
    requires n > 0
    ensures LastSize(n) >= 3 <==> !LeavesOver(n)
  {
    var count := CeilingDivide(n, EXERCISES_PER_SET);
    var size := CeilingDivide(n, count);
    SizeOfParts(n);
    if size == 10 {
      assert LastSize(n) == n - 10 * (count - 1);
      SizeIsTenIff(n, count);
    } else {
      SmallSizes(n, count, size);
    }
  }

  lemma SizeIsTenIff(n: nat, count: nat)
    requires count > 0 && 10 * (count - 1) < n <= 10 * count && CeilingDivide(n, count) == 10
    ensures n > 9 * count
  {
    DivisionBounds(n + count - 1, count);
  }

  /** Below size ten there are at most nine parts, and the last always holds three or more
      unless it is the only one. */
  lemma SmallSizes(n: nat, count: nat, size: nat)
    requires n > 0 && count == CeilingDivide(n, EXERCISES_PER_SET) && size == CeilingDivide(n, count)
    requires 10 * (count - 1) < n <= 10 * count && count > 0 && 0 < size < 10 && n <= count * size
    ensures LastSize(n) >= 3 <==> !LeavesOver(n)
  {
    Grows(9, size, count);
    assert n <= 9 * count;
    assert count <= 9;
    if count == 1 {
    } else if count == 2 {
    } else if count == 3 {
    } else if count == 4 {
    } else if count == 5 {
    } else if count == 6 {
    } else if count == 7 {
    } else if count == 8 {
    } else {
    }
  }

  /** Eighty-two exercises make nine sets, and the last holds two. */
  lemma EightyTwoLeaveTwo<E>(exercises: seq<E>)
    requires |exercises| == 82
    ensures |Parts(exercises)| == 9 && |Parts(exercises)[8]| == 2
  {
    PartsAreEven(exercises);
    LastPartSize(exercises);
  }
}
