/** Layers inside a star in `scripts/knowledge_base_import.py`: the inner hard edges kept acyclic
    in upstream order, then the longest chain below every point, memoised and capped. */
module CurriculumLayers {
  import opened Graphs
  import opened CurriculumGraph

  const MAX_LAYERS: nat := 4

  function Capped(d: nat): nat {
    if d < MAX_LAYERS then d else MAX_LAYERS
  }

  // ── The graph inside a star ─────────────────────────────────────────────────

  /** An edge counts inside a star when it is hard and joins two different points of it. */
  predicate Inner(points: set<string>, edge: Edge) {
    edge.strength == HARD && edge.point in points && edge.needs in points && edge.point != edge.needs
  }

  /** One of the first `k` edges is an inner one from `a` to `b`. */
  ghost predicate MadeBefore(points: set<string>, edges: seq<Edge>, k: nat, a: string, b: string)
    requires k <= |edges|
  {
    exists j :: 0 <= j < k && Inner(points, edges[j]) && edges[j].point == a && edges[j].needs == b
  }

  /** The cycle edge `k` would close, of kept edges that all come before it. */
  ghost predicate ClosesEarlierCycle(g: Graph, points: set<string>, edges: seq<Edge>, k: nat)
    requires k < |edges|
  {
    exists p :: EarlierPath(g, points, edges, k, p)
  }

  ghost predicate EarlierPath(g: Graph, points: set<string>, edges: seq<Edge>, k: nat, p: seq<string>)
    requires k < |edges|
  {
    IsPath(g, p, edges[k].needs, edges[k].point)
    && forall i :: 0 <= i < |p| - 1 ==> MadeBefore(points, edges, k, p[i], p[i + 1])
  }

  ghost predicate KeepsEdge(g: Graph, edge: Edge) {
    edge.needs in Succ(g, edge.point)
  }

  /** The inner edges that were kept: acyclic, and each left out closes a cycle of kept ones before it. */
  ghost predicate InnerGraph(g: Graph, points: set<string>, edges: seq<Edge>) {
    && Acyclic(g)
    && (forall a, b :: b in Succ(g, a) ==> MadeBefore(points, edges, |edges|, a, b))
    && (forall k :: 0 <= k < |edges| && Inner(points, edges[k]) ==>
          KeepsEdge(g, edges[k]) || ClosesEarlierCycle(g, points, edges, k))
  }

  lemma MadeStays(points: set<string>, edges: seq<Edge>, edge: Edge, k: nat, a: string, b: string)
    requires k <= |edges|
    ensures MadeBefore(points, edges, k, a, b) ==> MadeBefore(points, edges + [edge], k, a, b)
    ensures MadeBefore(points, edges, k, a, b) ==> MadeBefore(points, edges + [edge], |edges| + 1, a, b)
  {
    if j :| 0 <= j < k && Inner(points, edges[j]) && edges[j].point == a && edges[j].needs == b {
      assert (edges + [edge])[j] == edges[j];
    }
  }

  /** The cycles stay when the graph and the edges grow. */
  lemma CycleStays(g: Graph, h: Graph, points: set<string>, edges: seq<Edge>, edge: Edge, k: nat)
    requires k < |edges| && SubGraph(g, h) && ClosesEarlierCycle(g, points, edges, k)
    ensures ClosesEarlierCycle(h, points, edges + [edge], k)
  {
    var p :| EarlierPath(g, points, edges, k, p);
    forall i | 0 <= i < |p| - 1
      ensures p[i + 1] in Succ(h, p[i]) && MadeBefore(points, edges + [edge], k, p[i], p[i + 1])
    {
      assert Succ(g, p[i]) <= Succ(h, p[i]);
      MadeStays(points, edges, edge, k, p[i], p[i + 1]);
    }
    assert EarlierPath(h, points, edges + [edge], k, p);
  }

  /** The inner edges in upstream order, each kept unless it closes a cycle of those kept before it. */
  ghost function KeptInner(points: set<string>, edges: seq<Edge>): Graph {
    if |edges| == 0 then map[]
    else
      var n := |edges| - 1;
      var g, edge := KeptInner(points, edges[..n]), edges[n];
      if Inner(points, edge) && !Reaches(g, edge.needs, edge.point) then WithEdge(g, edge.point, edge.needs) else g
  }

  lemma OneMoreInner(g: Graph, points: set<string>, edges: seq<Edge>, edge: Edge)
    requires InnerGraph(g, points, edges)
    ensures Inner(points, edge) && !Reaches(g, edge.needs, edge.point) ==>
              InnerGraph(WithEdge(g, edge.point, edge.needs), points, edges + [edge])
    ensures !(Inner(points, edge) && !Reaches(g, edge.needs, edge.point)) ==> InnerGraph(g, points, edges + [edge])
  {
    var taken := Inner(points, edge) && !Reaches(g, edge.needs, edge.point);
    var h := if taken then WithEdge(g, edge.point, edge.needs) else g;
    var more := edges + [edge];
    assert more[|edges|] == edge && forall k :: 0 <= k < |edges| ==> more[k] == edges[k];
    if taken {
      AddingKeepsAcyclic(g, edge.point, edge.needs);
    } else if Inner(points, edge) {
      LastCloses(g, points, edges, edge);
    }
    forall a, b | b in Succ(h, a) ensures MadeBefore(points, more, |more|, a, b) {
      if b in Succ(g, a) {
        MadeStays(points, edges, edge, |edges|, a, b);
      } else {
        assert Inner(points, more[|edges|]);
      }
    }
    forall k | 0 <= k < |more| && Inner(points, more[k])
      ensures KeepsEdge(h, more[k]) || ClosesEarlierCycle(h, points, more, k)
    {
      if k < |edges| && !KeepsEdge(g, edges[k]) {
        CycleStays(g, h, points, edges, edge, k);
      }
    }
  }

  lemma LastCloses(g: Graph, points: set<string>, edges: seq<Edge>, edge: Edge)
    requires InnerGraph(g, points, edges) && Reaches(g, edge.needs, edge.point)
    ensures ClosesEarlierCycle(g, points, edges + [edge], |edges|)
  {
    var p :| IsPath(g, p, edge.needs, edge.point);
    forall i | 0 <= i < |p| - 1 ensures MadeBefore(points, edges + [edge], |edges|, p[i], p[i + 1]) {
      assert p[i + 1] in Succ(g, p[i]);
      MadeStays(points, edges, edge, |edges|, p[i], p[i + 1]);
    }
    assert EarlierPath(g, points, edges + [edge], |edges|, p);
  }

  lemma {:induction false} KeptInnerIsInner(points: set<string>, edges: seq<Edge>)
    ensures InnerGraph(KeptInner(points, edges), points, edges)
  {
    if |edges| > 0 {
      var n := |edges| - 1;
      KeptInnerIsInner(points, edges[..n]);
      OneMoreInner(KeptInner(points, edges[..n]), points, edges[..n], edges[n]);
      assert edges[..n] + [edges[n]] == edges;
    }
  }

  /** So there is one inner graph: two agree on the first edges, however many. */
  lemma {:induction false} InnerAgree(g: Graph, h: Graph, points: set<string>, edges: seq<Edge>, k: nat)
    requires InnerGraph(g, points, edges) && InnerGraph(h, points, edges) && k <= |edges|
    ensures forall j :: 0 <= j < k && Inner(points, edges[j]) ==> (KeepsEdge(g, edges[j]) <==> KeepsEdge(h, edges[j]))
  {
    if k > 0 {
      InnerAgree(g, h, points, edges, k - 1);
      if Inner(points, edges[k - 1]) {
        KeptInBoth(g, h, points, edges, k - 1);
        KeptInBoth(h, g, points, edges, k - 1);
      }
    }
  }

  lemma LaterPathHolds(g: Graph, h: Graph, points: set<string>, edges: seq<Edge>, k: nat, p: seq<string>)
    requires k < |edges| && EarlierPath(h, points, edges, k, p)
    requires forall j :: 0 <= j < k && Inner(points, edges[j]) ==> (KeepsEdge(g, edges[j]) <==> KeepsEdge(h, edges[j]))
    ensures Reaches(g, edges[k].needs, edges[k].point)
  {
    forall i | 0 <= i < |p| - 1 ensures p[i + 1] in Succ(g, p[i]) {
      assert p[i + 1] in Succ(h, p[i]) && MadeBefore(points, edges, k, p[i], p[i + 1]);
      var j :| 0 <= j < k && Inner(points, edges[j]) && edges[j].point == p[i] && edges[j].needs == p[i + 1];
      assert KeepsEdge(h, edges[j]);
    }
    assert IsPath(g, p, edges[k].needs, edges[k].point);
  }

  lemma KeptInBoth(g: Graph, h: Graph, points: set<string>, edges: seq<Edge>, k: nat)
    requires InnerGraph(g, points, edges) && InnerGraph(h, points, edges) && k < |edges| && Inner(points, edges[k])
    requires forall j :: 0 <= j < k && Inner(points, edges[j]) ==> (KeepsEdge(g, edges[j]) <==> KeepsEdge(h, edges[j]))
    ensures KeepsEdge(g, edges[k]) ==> KeepsEdge(h, edges[k])
  {
    if KeepsEdge(g, edges[k]) && !KeepsEdge(h, edges[k]) {
      var p :| EarlierPath(h, points, edges, k, p);
      LaterPathHolds(g, h, points, edges, k, p);
    }
  }

  lemma InnerIsUnique(g: Graph, h: Graph, points: set<string>, edges: seq<Edge>)
    requires InnerGraph(g, points, edges) && InnerGraph(h, points, edges)
    ensures forall a, b :: b in Succ(g, a) <==> b in Succ(h, a)
  {
    InnerAgree(g, h, points, edges, |edges|);
    forall a, b | b in Succ(g, a) || b in Succ(h, a) ensures b in Succ(g, a) <==> b in Succ(h, a) {
      assert MadeBefore(points, edges, |edges|, a, b);
      var j :| 0 <= j < |edges| && Inner(points, edges[j]) && edges[j].point == a && edges[j].needs == b;
      assert KeepsEdge(g, edges[j]) <==> KeepsEdge(h, edges[j]);
    }
  }

  method KeepInner(points: set<string>, edges: seq<Edge>) returns (g: Graph)
    ensures g == KeptInner(points, edges)
  {
    g := map[];
    for n := 0 to |edges|
      invariant g == KeptInner(points, edges[..n])
    {
      assert edges[..n + 1][..n] == edges[..n];
      var edge := edges[n];
      if edge.strength == HARD && edge.point in points && edge.needs in points && edge.point != edge.needs {
        var closes := ClosesCycle(g, edge.point, edge.needs);
        if !closes {
          g := WithEdge(g, edge.point, edge.needs);
        }
      }
    }
    assert edges[..|edges|] == edges;
  }

  // ── The longest chain ───────────────────────────────────────────────────────

  /** A chain of the points one needs in turn, starting from `n`. */
  ghost predicate ChainFrom(g: Graph, p: seq<string>, n: string) {
    Chain(g, p) && p[0] == n
  }

  /** `d` is the number of points on the longest chain from `n`. */
  ghost predicate IsLayer(g: Graph, n: string, d: nat) {
    && (exists p :: ChainFrom(g, p, n) && |p| == d)
    && (forall p :: ChainFrom(g, p, n) ==> |p| <= d)
  }

  /** A point's layer is one more than the deepest layer it needs. */
  lemma LayerFromBelow(g: Graph, n: string, deepest: nat, layers: map<string, nat>)
    requires forall r :: r in Succ(g, n) ==> r in layers && IsLayer(g, r, layers[r]) && layers[r] <= deepest
    requires deepest == 0 || exists r :: r in Succ(g, n) && layers[r] == deepest
    ensures IsLayer(g, n, 1 + deepest)
  {
    if deepest == 0 {
      assert ChainFrom(g, [n], n);
    } else {
      var r :| r in Succ(g, n) && layers[r] == deepest;
      var p :| ChainFrom(g, p, r) && |p| == deepest;
      assert ChainFrom(g, [n] + p, n);
    }
    forall p | ChainFrom(g, p, n) ensures |p| <= 1 + deepest {
      if |p| > 1 {
        assert ChainFrom(g, p[1..], p[1]);
      }
    }
  }

  lemma LayerIsUnique(g: Graph, n: string, d: nat, e: nat)
    requires IsLayer(g, n, d) && IsLayer(g, n, e)
    ensures d == e
  {
    var p :| ChainFrom(g, p, n) && |p| == d;
    var q :| ChainFrom(g, q, n) && |q| == e;
  }

  /** A point lies strictly above whatever it needs; capping keeps that below the cap. */
  lemma DependentLiesAbove(g: Graph, n: string, r: string, d: nat, e: nat)
    requires r in Succ(g, n) && IsLayer(g, n, d) && IsLayer(g, r, e)
    ensures d > e >= 1
    ensures Capped(d) > Capped(e) || Capped(d) == Capped(e) == MAX_LAYERS
  {
    var p :| ChainFrom(g, p, r) && |p| == e;
    assert ChainFrom(g, [n] + p, n);
    assert ChainFrom(g, [r], r);
  }

  /** The points reachable from one; it shrinks along every edge of an acyclic graph. */
  ghost function Below(g: Graph, n: string): set<string> {
    set m | m in Nodes(g) + {n} && Reaches(g, n, m)
  }

  lemma BelowShrinks(g: Graph, n: string, r: string)
    requires Acyclic(g) && r in Succ(g, n)
    ensures Below(g, r) < Below(g, n)
  {
    forall m | m in Below(g, r) ensures m in Below(g, n) {
      StepThenReach(g, n, r, m);
    }
    ReachesItself(g, n);
    assert n in Below(g, n) && n !in Below(g, r);
  }

  /** The nested `layer` function with the dictionary it fills. */
  class LayerMemo {
    const graph: Graph
    var layers: map<string, nat>

    ghost predicate Valid()
      reads this
    {
      Acyclic(graph) && forall n :: n in layers ==> IsLayer(graph, n, layers[n])
    }

    constructor (graph: Graph)
      requires Acyclic(graph)
      ensures Valid() && this.graph == graph && layers == map[]
    {
      this.graph := graph;
      layers := map[];
    }

    method Layer(point: string) returns (d: nat)
      requires Valid()
      modifies this`layers
      ensures Valid() && point in layers && d == layers[point] && IsLayer(graph, point, d)
      ensures forall n :: n in old(layers) ==> n in layers && layers[n] == old(layers)[n]
      decreases Below(graph, point)
    {
      if point !in layers {
        var deepest, left := 0, Succ(graph, point);
        while left != {}
          invariant Valid() && left <= Succ(graph, point)
          invariant forall n :: n in old(layers) ==> n in layers && layers[n] == old(layers)[n]
          invariant forall r :: r in Succ(graph, point) - left ==> r in layers && layers[r] <= deepest
          invariant deepest == 0 || exists r :: r in Succ(graph, point) - left && r in layers && layers[r] == deepest
          decreases left
        {
          var r :| r in left;
          BelowShrinks(graph, point, r);
          var below := Layer(r);
          if below > deepest {
            deepest := below;
          }
          left := left - {r};
        }
        LayerFromBelow(graph, point, deepest, layers);
        if point in layers {
          LayerIsUnique(graph, point, layers[point], 1 + deepest);
        }
        layers := layers[point := 1 + deepest];
      }
      d := layers[point];
    }
  }

  /** Every point's capped layer, by the kept inner edges. */
  ghost predicate LayersOf(g: Graph, points: seq<string>, layerOf: map<string, nat>) {
    && (forall n :: n in layerOf <==> n in points)
    && (forall n :: n in points ==> exists d: nat :: IsLayer(g, n, d) && layerOf[n] == Capped(d))
  }

  method PointLayers(starPoints: seq<string>, edges: seq<Edge>) returns (layerOf: map<string, nat>)
    ensures LayersOf(KeptInner((set n | n in starPoints), edges), starPoints, layerOf)
  {
    var mine := set n | n in starPoints;
    var graph := KeepInner(mine, edges);
    KeptInnerIsInner(mine, edges);
    var memo := new LayerMemo(graph);
    layerOf := map[];
    for k := 0 to |starPoints|
      invariant memo.Valid() && memo.graph == graph
      invariant LayersOf(graph, starPoints[..k], layerOf)
    {
      var d := memo.Layer(starPoints[k]);
      ghost var before := layerOf;
      layerOf := layerOf[starPoints[k] := Capped(d)];
      forall n | n in starPoints[..k + 1] ensures exists e: nat :: IsLayer(graph, n, e) && layerOf[n] == Capped(e) {
        if n != starPoints[k] {
          assert n in starPoints[..k];
          var e: nat :| IsLayer(graph, n, e) && before[n] == Capped(e);
          assert layerOf[n] == Capped(e);
        } else {
          assert layerOf[n] == Capped(d);
        }
      }
    }
    assert starPoints[..|starPoints|] == starPoints;
  }

  /** A star's points have one layer each. */
  lemma LayersAreUnique(g: Graph, points: seq<string>, a: map<string, nat>, b: map<string, nat>)
    requires LayersOf(g, points, a) && LayersOf(g, points, b)
    ensures a == b
  {
    forall n | n in points ensures a[n] == b[n] {
      var d: nat :| IsLayer(g, n, d) && a[n] == Capped(d);
      var e: nat :| IsLayer(g, n, e) && b[n] == Capped(e);
      LayerIsUnique(g, n, d, e);
    }
  }

  /** For every kept edge the dependent point's layer is strictly greater, or both are at the cap. */
  lemma LayersRespectEdges(g: Graph, points: seq<string>, layerOf: map<string, nat>, n: string, r: string)
    requires LayersOf(g, points, layerOf) && n in points && r in points && r in Succ(g, n)
    ensures layerOf[n] > layerOf[r] || layerOf[n] == layerOf[r] == MAX_LAYERS
    ensures 1 <= layerOf[r] <= MAX_LAYERS
  {
    var d: nat :| IsLayer(g, n, d) && layerOf[n] == Capped(d);
    var e: nat :| IsLayer(g, r, e) && layerOf[r] == Capped(e);
    DependentLiesAbove(g, n, r, d, e);
  }
}
