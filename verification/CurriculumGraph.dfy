/** Star prerequisites of `scripts/knowledge_base_import.py`: the links between stars, heaviest
    first, each kept unless it would close a cycle. */
module CurriculumGraph {
  import opened Graphs
  import opened Sorting

  const HARD := "hard"

  /** One upstream edge: `point` needs `needs`. */
  datatype Edge = Edge(point: string, needs: string, strength: string)

  /** A link from a star to one it requires. */
  type Link = (string, string)

  datatype Weighted = Weighted(link: Link, weight: nat)

  type PointStar = map<string, string>

  /** The star of a point, empty when it has none. */
  function StarOf(stars: PointStar, point: string): string {
    if point in stars then stars[point] else ""
  }

  /** The link between stars an edge makes, if it is a hard edge between two different stars. */
  predicate Makes(stars: PointStar, edge: Edge, link: Link) {
    && edge.strength == HARD
    && edge.point in stars && stars[edge.point] == link.0 != ""
    && edge.needs in stars && stars[edge.needs] == link.1 != ""
    && link.0 != link.1
  }

  /** How many edges make a link. */
  ghost function Weight(stars: PointStar, edges: seq<Edge>, link: Link): nat {
    if |edges| == 0 then 0
    else
      var n := |edges| - 1;
      Weight(stars, edges[..n], link) + if Makes(stars, edges[n], link) then 1 else 0
  }

  lemma {:induction false} WeighedIsMade(stars: PointStar, edges: seq<Edge>, link: Link)
    ensures Weight(stars, edges, link) > 0 <==> exists k :: 0 <= k < |edges| && Makes(stars, edges[k], link)
  {
    if |edges| > 0 {
      var n := |edges| - 1;
      WeighedIsMade(stars, edges[..n], link);
      assert forall k :: 0 <= k < n ==> edges[..n][k] == edges[k];
    }
  }

  method CountLinks(stars: PointStar, edges: seq<Edge>) returns (weights: map<Link, nat>)
    ensures forall link :: link in weights <==> Weight(stars, edges, link) > 0
    ensures forall link :: link in weights ==> weights[link] == Weight(stars, edges, link)
  {
    weights := map[];
    for n := 0 to |edges|
      invariant forall link :: link in weights <==> Weight(stars, edges[..n], link) > 0
      invariant forall link :: link in weights ==> weights[link] == Weight(stars, edges[..n], link)
    {
      assert edges[..n + 1][..n] == edges[..n];
      var edge := edges[n];
      var star, requires_ := StarOf(stars, edge.point), StarOf(stars, edge.needs);
      if edge.strength == HARD && star != "" && requires_ != "" && star != requires_ {
        var counted := if (star, requires_) in weights then weights[(star, requires_)] else 0;
        weights := weights[(star, requires_) := counted + 1];
      }
    }
    assert edges[..|edges|] == edges;
  }

  // ── Heaviest first ──────────────────────────────────────────────────────────

  predicate LinkAtOrBefore(a: Link, b: Link) {
    if a.0 == b.0 then AtOrBefore(a.1, b.1) else AtOrBefore(a.0, b.0)
  }

  /** Heavier links first, and by name among equals. */
  predicate HeavierFirst(a: Weighted, b: Weighted) {
    a.weight > b.weight || (a.weight == b.weight && LinkAtOrBefore(a.link, b.link))
  }

  lemma HeavierFirstIsTotal()
    ensures TotalPreorder(HeavierFirst)
  {
    forall a: Weighted, b: Weighted ensures HeavierFirst(a, b) || HeavierFirst(b, a) {
      StringsTotal(a.link.0, b.link.0);
      StringsTotal(a.link.1, b.link.1);
    }
    forall a: Weighted, b: Weighted, c: Weighted | HeavierFirst(a, b) && HeavierFirst(b, c) ensures HeavierFirst(a, c) {
      if a.weight == b.weight == c.weight {
        LinksTransitive(a.link, b.link, c.link);
      }
    }
  }

  lemma LinksTransitive(a: Link, b: Link, c: Link)
    requires LinkAtOrBefore(a, b) && LinkAtOrBefore(b, c)
    ensures LinkAtOrBefore(a, c)
  {
    if a.0 == b.0 == c.0 {
      StringsTransitive(a.1, b.1, c.1);
    } else if a.0 != b.0 && b.0 != c.0 {
      StringsTransitive(a.0, b.0, c.0);
      StringsTotal(a.0, b.0);
    }
  }

  /** The weighted links, heaviest first. */
  method Ranked(weights: map<Link, nat>) returns (ranked: seq<Weighted>)
    ensures SortedBy(ranked, HeavierFirst)
    ensures forall x: Weighted :: x in ranked <==> x.link in weights && weights[x.link] == x.weight
  {
    var items: seq<Weighted>, left := [], weights.Keys;
    while left != {}
      invariant left <= weights.Keys
      invariant forall x: Weighted :: x in items <==> x.link in weights.Keys - left && weights[x.link] == x.weight
      decreases left
    {
      var link :| link in left;
      items, left := items + [Weighted(link, weights[link])], left - {link};
    }
    HeavierFirstIsTotal();
    SortOrders(items, HeavierFirst);
    SortMembers(items, HeavierFirst);
    ranked := Sorted(items, HeavierFirst);
  }

  // ── The kept links ──────────────────────────────────────────────────────────

  predicate Kept(g: Graph, link: Link) {
    link.1 in Succ(g, link.0)
  }

  ghost predicate LinkPrecedes(a: Link, b: Link) {
    Precedes(a.0, b.0) || (a.0 == b.0 && Precedes(a.1, b.1))
  }

  /** A link heavier than another, or as heavy and before it by name. */
  ghost predicate Outranks(weight: Link -> nat, a: Link, b: Link) {
    weight(a) > weight(b) || (weight(a) == weight(b) && LinkPrecedes(a, b))
  }

  /** What ranking the links means. */
  lemma HeavierFirstIff(weight: Link -> nat, a: Link, b: Link)
    ensures HeavierFirst(Weighted(a, weight(a)), Weighted(b, weight(b))) <==> a == b || Outranks(weight, a, b)
  {
    AtOrBeforeIff(a.0, b.0);
    AtOrBeforeIff(a.1, b.1);
    AtOrBeforeIff(b.0, a.0);
    if a.0 == b.0 && Precedes(a.0, b.0) {
      NotBeforeItself(a.0);
    }
  }

  lemma NotBeforeItself(a: string)
    ensures !Precedes(a, a)
  {
  }

  /** A path along kept links that all outrank the link. */
  ghost predicate HeavyPath(g: Graph, weight: Link -> nat, p: seq<string>, a: string, b: string, link: Link) {
    IsPath(g, p, a, b) && forall k :: 0 <= k < |p| - 1 ==> Outranks(weight, (p[k], p[k + 1]), link)
  }

  /** Why a link was left out: the cycle it would close, of kept links that outrank it. */
  ghost predicate ClosesHeavierCycle(g: Graph, weight: Link -> nat, link: Link) {
    exists p :: HeavyPath(g, weight, p, link.1, link.0, link)
  }

  /** The star prerequisites: a link of the upstream edges is either kept or closes a cycle. */
  ghost predicate Greedy(g: Graph, weight: Link -> nat) {
    && Acyclic(g)
    && (forall s, r :: r in Succ(g, s) ==> weight((s, r)) > 0)
    && (forall s, r :: weight((s, r)) > 0 ==> r in Succ(g, s) || ClosesHeavierCycle(g, weight, (s, r)))
  }

  lemma HeavyPathGrows(g: Graph, h: Graph, weight: Link -> nat, link: Link)
    requires SubGraph(g, h) && ClosesHeavierCycle(g, weight, link)
    ensures ClosesHeavierCycle(h, weight, link)
  {
    var p :| HeavyPath(g, weight, p, link.1, link.0, link);
    forall k | 0 <= k < |p| - 1 ensures p[k + 1] in Succ(h, p[k]) {
      assert Succ(g, p[k]) <= Succ(h, p[k]);
    }
    assert HeavyPath(h, weight, p, link.1, link.0, link);
  }

  /** Adding the links in order, each unless it closes a cycle. */
  method KeepLinks(ranked: seq<Weighted>, ghost weight: Link -> nat) returns (g: Graph)
    requires SortedBy(ranked, HeavierFirst)
    requires forall x: Weighted :: x in ranked <==> weight(x.link) == x.weight > 0
    ensures Greedy(g, weight) && forall s :: s in g ==> g[s] != {}
  {
    g := map[];
    for n := 0 to |ranked|
      invariant Acyclic(g) && forall s :: s in g ==> g[s] != {}
      invariant forall s, r :: r in Succ(g, s) ==> exists k :: 0 <= k < n && ranked[k].link == (s, r)
      invariant forall k :: 0 <= k < n ==> Kept(g, ranked[k].link) || ClosesHeavierCycle(g, weight, ranked[k].link)
    {
      var x := ranked[n];
      assert x in ranked;
      var (star, requires_) := x.link;
      var closes := ClosesCycle(g, star, requires_);
      ghost var before := g;
      if !closes {
        AddingKeepsAcyclic(g, star, requires_);
        g := WithEdge(g, star, requires_);
        assert Kept(g, x.link);
      } else {
        ghost var p :| IsPath(g, p, requires_, star);
        CycleLeavesOut(g, x.link, p);
        forall k | 0 <= k < |p| - 1 ensures Outranks(weight, (p[k], p[k + 1]), x.link) {
          assert p[k + 1] in Succ(g, p[k]);
          ghost var m :| 0 <= m < n && ranked[m].link == (p[k], p[k + 1]);
          assert ranked[m] in ranked && HeavierFirst(ranked[m], x);
          HeavierFirstIff(weight, (p[k], p[k + 1]), x.link);
        }
        assert HeavyPath(g, weight, p, requires_, star, x.link);
      }
      forall k | 0 <= k < n ensures Kept(g, ranked[k].link) || ClosesHeavierCycle(g, weight, ranked[k].link) {
        if !Kept(before, ranked[k].link) {
          HeavyPathGrows(before, g, weight, ranked[k].link);
        }
      }
    }
    forall s, r | weight((s, r)) > 0 ensures r in Succ(g, s) || ClosesHeavierCycle(g, weight, (s, r)) {
      assert Weighted((s, r), weight((s, r))) in ranked;
    }
    forall s, r | r in Succ(g, s) ensures weight((s, r)) > 0 {
      ghost var k :| 0 <= k < |ranked| && ranked[k].link == (s, r);
      assert ranked[k] in ranked;
    }
  }

  /** A link whose cycle is there is not kept itself. */
  lemma CycleLeavesOut(g: Graph, link: Link, p: seq<string>)
    requires Acyclic(g) && IsPath(g, p, link.1, link.0)
    ensures forall k :: 0 <= k < |p| - 1 ==> (p[k], p[k + 1]) != link
  {
    assert Reaches(g, link.1, link.0);
    assert !Kept(g, link);
  }

  // ── One graph only ──────────────────────────────────────────────────────────

  ghost function LinksOf(g: Graph): set<Link> {
    set s, r | s in g && r in g[s] :: (s, r)
  }

  lemma OutranksOrders(weight: Link -> nat, a: Link, b: Link, c: Link)
    ensures a == b || Outranks(weight, a, b) || Outranks(weight, b, a)
    ensures Outranks(weight, a, b) && Outranks(weight, b, c) ==> a == c || Outranks(weight, a, c)
  {
    HeavierFirstIsTotal();
    HeavierFirstIff(weight, a, b);
    HeavierFirstIff(weight, b, a);
    HeavierFirstIff(weight, b, c);
    HeavierFirstIff(weight, a, c);
  }

  /** Some links have one that none of them outranks. */
  lemma {:induction false} First(weight: Link -> nat, links: set<Link>) returns (first: Link)
    requires links != {}
    ensures first in links && forall x :: x in links && x != first ==> Outranks(weight, first, x)
    decreases links
  {
    var y :| y in links;
    first := y;
    if links != {y} {
      var z := First(weight, links - {y});
      OutranksOrders(weight, y, z, z);
      first := if Outranks(weight, y, z) then y else z;
      forall x | x in links && x != first ensures Outranks(weight, first, x) {
        OutranksOrders(weight, first, z, x);
        if x != y && x != z {
          assert Outranks(weight, z, x);
          NotBothWays(weight, y, z);
        }
      }
    }
  }

  lemma NotBothWays(weight: Link -> nat, a: Link, b: Link)
    requires a != b
    ensures !(Outranks(weight, a, b) && Outranks(weight, b, a))
  {
    AtOrBeforeIff(a.0, b.0);
    AtOrBeforeIff(b.0, a.0);
    AtOrBeforeIff(a.1, b.1);
    AtOrBeforeIff(b.1, a.1);
    StringsTotal(a.0, b.0);
    StringsTotal(a.1, b.1);
    NotBeforeItself(a.0);
    NotBeforeItself(a.1);
  }

  /** The links and their weights determine the graph. */
  lemma GreedyIsUnique(g: Graph, h: Graph, weight: Link -> nat)
    requires Greedy(g, weight) && Greedy(h, weight)
    ensures LinksOf(g) == LinksOf(h)
  {
    var apart := (LinksOf(g) - LinksOf(h)) + (LinksOf(h) - LinksOf(g));
    if apart != {} {
      var link := First(weight, apart);
      if link in LinksOf(g) {
        NotOnlyIn(g, h, weight, link, apart);
      } else {
        NotOnlyIn(h, g, weight, link, apart);
      }
    }
  }

  /** The first link in which two graphs differ would close a cycle in the one that has it. */
  lemma NotOnlyIn(g: Graph, h: Graph, weight: Link -> nat, link: Link, apart: set<Link>)
    requires Greedy(g, weight) && Greedy(h, weight) && link in LinksOf(g)
    requires forall x :: x in LinksOf(h) && x !in LinksOf(g) ==> x in apart
    requires forall x :: x in apart && x != link ==> Outranks(weight, link, x)
    ensures link in LinksOf(h)
  {
    assert Kept(g, link) && weight(link) > 0;
    if !Kept(h, link) {
      var p :| HeavyPath(h, weight, p, link.1, link.0, link);
      forall k | 0 <= k < |p| - 1 ensures p[k + 1] in Succ(g, p[k]) {
        var x := (p[k], p[k + 1]);
        assert x in LinksOf(h) && Outranks(weight, x, link);
        if x !in LinksOf(g) {
          NotBothWays(weight, link, x);
        }
      }
      assert IsPath(g, p, link.1, link.0);
    }
  }

  /** A link comes from a hard edge between points of its two stars. */
  ghost predicate FromEdge(stars: PointStar, edges: seq<Edge>, link: Link) {
    exists k :: 0 <= k < |edges| && Makes(stars, edges[k], link)
  }

  function AsGraph(listed: map<string, seq<string>>): Graph {
    map s | s in listed :: set r | r in listed[s]
  }

  /** Star-level prerequisites from the upstream hard edges between knowledge points. */
  method StarPrerequisites(stars: PointStar, edges: seq<Edge>) returns (listed: map<string, seq<string>>)
    ensures Greedy(AsGraph(listed), link => Weight(stars, edges, link))
    // The stars that have any, each prerequisite once and by name.
    ensures forall s :: s in listed ==> listed[s] != [] && Ascending(listed[s])
    ensures forall s, r :: s in listed && r in listed[s] ==> FromEdge(stars, edges, (s, r))
  {
    var weights := CountLinks(stars, edges);
    var ranked := Ranked(weights);
    var g := KeepLinks(ranked, link => Weight(stars, edges, link));
    listed := map[];
    var left := g.Keys;
    while left != {}
      invariant left <= g.Keys && listed.Keys == g.Keys - left
      invariant forall s :: s in listed ==> Ascending(listed[s]) && forall r :: r in listed[s] <==> r in g[s]
      decreases left
    {
      var s :| s in left;
      var requires_ := Listed(g[s]);
      SortAscends(requires_);
      listed, left := listed[s := Sorted(requires_, AtOrBefore)], left - {s};
    }
    assert AsGraph(listed) == g by {
      forall s | s in g ensures s in AsGraph(listed) && AsGraph(listed)[s] == g[s] {
      }
    }
    forall s | s in listed ensures listed[s] != [] {
      var r :| r in g[s];
      assert r in listed[s];
    }
    forall s, r | s in listed && r in listed[s] ensures FromEdge(stars, edges, (s, r)) {
      assert r in Succ(g, s);
      WeighedIsMade(stars, edges, (s, r));
    }
  }
}
