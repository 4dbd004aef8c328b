/** Target distances of `scripts/layout_starmap.py`: edge lengths from link weights, all-pairs
    shortest paths relaxed in place, and one common distance for every unconnected pair. */
module StarmapDistances {
  import opened Reals
  import opened Lookup
  import StarmapStress

  const BASE_EDGE := 5.0
  const UNRELATED_SPREAD := 1.9

  /** A distance, `Far` standing for the infinity the matrix starts from. */
  datatype Reach = At(d: real) | Far

  function Plus(a: Reach, b: Reach): Reach {
    if a.Far? || b.Far? then Far else At(a.d + b.d)
  }

  predicate Less(a: Reach, b: Reach) {
    a.At? && (b.Far? || a.d < b.d)
  }

  function Shorter(a: Reach, b: Reach): Reach {
    if Less(b, a) then b else a
  }

  /** One weighted link between two topics, as `nebula_edges` counts it. */
  datatype Link = Link(left: string, right: string, weight: nat)

  // ── The graph ───────────────────────────────────────────────────────────────

  /** The topics have distinct names, and a name that is not a topic is ignored. */
  ghost predicate Distinct(topics: seq<string>) {
    forall i, j :: 0 <= i < j < |topics| ==> topics[i] != topics[j]
  }

  /** Whether a link joins the topics at `i` and `j`, either way round. */
  predicate Joins(topics: seq<string>, link: Link, i: int, j: int) {
    && 0 <= i < |topics| && 0 <= j < |topics|
    && ((link.left == topics[i] && link.right == topics[j]) || (link.left == topics[j] && link.right == topics[i]))
  }

  function Length(root: real -> real, link: Link): real
    requires root(link.weight as real) != 0.0
  {
    BASE_EDGE / root(link.weight as real)
  }

  /** Links weigh at least one, so their lengths are positive. */
  ghost predicate Links(root: real -> real, links: seq<Link>) {
    IsRoot(root) && forall k :: 0 <= k < |links| ==> links[k].weight >= 1
  }

  /** The direct distance of two topics: the shortest of their links, zero for a topic itself. */
  ghost function Direct(root: real -> real, topics: seq<string>, links: seq<Link>, i: int, j: int): Reach
    requires Links(root, links)
  {
    if i == j then At(0.0)
    else if |links| == 0 then Far
    else
      var rest := Direct(root, topics, links[..|links| - 1], i, j);
      var link := links[|links| - 1];
      WeightRoot(root, link.weight);
      if Joins(topics, link, i, j) then Shorter(rest, At(Length(root, link))) else rest
  }

  lemma WeightRoot(root: real -> real, weight: nat)
    requires IsRoot(root) && weight >= 1
    ensures root(weight as real) > 0.0 && BASE_EDGE / root(weight as real) > 0.0
  {
    assert IsRootAt(root, weight as real);
    assert Times(0.0, 0.0) == 0.0;
    PositiveQuotient(BASE_EDGE, root(weight as real));
  }

  /** A link's length falls with the root of its weight: its square times the weight is the same for all. */
  lemma LengthSquared(root: real -> real, link: Link)
    requires IsRoot(root) && link.weight >= 1 && root(link.weight as real) != 0.0
    ensures Length(root, link) > 0.0
    ensures Times(Times(Length(root, link), Length(root, link)), link.weight as real) == BASE_EDGE * BASE_EDGE
  {
    var r := root(link.weight as real);
    WeightRoot(root, link.weight);
    assert IsRootAt(root, link.weight as real);
    DivisionUndone(BASE_EDGE, r);
    ProductSquared(Length(root, link), r);
    assert Times(BASE_EDGE, BASE_EDGE) == BASE_EDGE * BASE_EDGE;
  }

  /** A heavier link is a shorter edge. */
  lemma HeavierIsShorter(root: real -> real, a: Link, b: Link)
    requires IsRoot(root) && 1 <= a.weight < b.weight
    requires root(a.weight as real) != 0.0 && root(b.weight as real) != 0.0
    ensures 0.0 < Length(root, b) < Length(root, a)
  {
    var la, lb := Length(root, a), Length(root, b);
    LengthSquared(root, a);
    LengthSquared(root, b);
    if la <= lb {
      ProductMonotone(la, lb, la);
      ProductMonotone(la, lb, lb);
      Commute(la, lb);
      ProductPositive(la, la);
      ProductMonotone(Times(la, la), Times(lb, lb), a.weight as real);
      HeavierProduct(Times(lb, lb), a.weight, b.weight);
      ProductPositive(lb, lb);
    }
  }

  lemma HeavierProduct(square: real, a: nat, b: nat)
    requires a < b && square > 0.0
    ensures Times(square, a as real) < Times(square, b as real)
  {
    Commute(square, a as real);
    Commute(square, b as real);
    Distribute(b as real, a as real, square);
    ProductPositive(b as real - a as real, square);
  }

  lemma PositiveQuotient(a: real, b: real)
    requires a > 0.0 && b > 0.0
    ensures a / b > 0.0
  {
  }

  // ── Shortest paths ──────────────────────────────────────────────────────────

  /** A symmetric graph on the vertices below `n`, read as a table of direct distances. */
  type Edges = (int, int) -> Reach

  ghost predicate Graph(w: Edges, n: nat) {
    forall i, j :: 0 <= i < n && 0 <= j < n
      ==> w(i, j) == w(j, i) && (i == j ==> w(i, j) == At(0.0)) && (i != j && w(i, j).At? ==> w(i, j).d > 0.0)
  }

  /** The least distance from `i` to `j` through intermediate vertices below `k`. */
  ghost function Shortest(w: Edges, k: nat, i: int, j: int): Reach {
    if k == 0 then w(i, j)
    else Shorter(Shortest(w, k - 1, i, j), Plus(Shortest(w, k - 1, i, k - 1), Shortest(w, k - 1, k - 1, j)))
  }

  predicate AtMost(a: Reach, b: Reach) {
    b.Far? || (a.At? && a.d <= b.d)
  }

  /** A path is a non-empty list of vertices; its length adds up its edges. */
  ghost predicate IsPath(p: seq<int>, n: nat, i: int, j: int) {
    && |p| > 0 && p[0] == i && p[|p| - 1] == j
    && forall k :: 0 <= k < |p| ==> 0 <= p[k] < n
  }

  ghost function PathLength(w: Edges, p: seq<int>): Reach {
    if |p| <= 1 then At(0.0) else Plus(w(p[0], p[1]), PathLength(w, p[1..]))
  }

  /** One step of the recurrence. */
  lemma NextRound(w: Edges, k: nat, i: int, j: int)
    ensures Shortest(w, k + 1, i, j) == Shorter(Shortest(w, k, i, j), Plus(Shortest(w, k, i, k), Shortest(w, k, k, j)))
  {
  }

  /** What a distance between `i` and `j` may be. */
  ghost predicate Distance(r: Reach, i: int, j: int) {
    if i == j then r == At(0.0) else r.At? ==> r.d > 0.0
  }

  lemma RelayedDistance(direct: Reach, first: Reach, second: Reach, i: int, k: int, j: int)
    requires Distance(direct, i, j) && Distance(first, i, k) && Distance(second, k, j)
    ensures Distance(Shorter(direct, Plus(first, second)), i, j)
  {
  }

  lemma {:induction false} ShortestIsMetric(w: Edges, n: nat, k: nat, i: int, j: int)
    requires Graph(w, n) && k <= n && 0 <= i < n && 0 <= j < n
    ensures Shortest(w, k, i, j) == Shortest(w, k, j, i)
    ensures Distance(Shortest(w, k, i, j), i, j)
  {
    if k > 0 {
      var r := k - 1;
      ShortestIsMetric(w, n, r, i, j);
      ShortestIsMetric(w, n, r, i, r);
      ShortestIsMetric(w, n, r, r, j);
      NextRound(w, r, i, j);
      NextRound(w, r, j, i);
      RelayedDistance(Shortest(w, r, i, j), Shortest(w, r, i, r), Shortest(w, r, r, j), i, r, j);
    }
  }

  /** Rounds only shorten distances. */
  lemma {:induction false} RoundsShorten(w: Edges, k: nat, m: nat, i: int, j: int)
    requires k <= m
    ensures AtMost(Shortest(w, m, i, j), Shortest(w, k, i, j))
  {
    if k < m {
      RoundsShorten(w, k, m - 1, i, j);
    }
  }

  /** The row and the column of the relayed vertex do not change in its own round. */
  lemma OwnRound(w: Edges, n: nat, k: nat, i: int)
    requires Graph(w, n) && k < n && 0 <= i < n
    ensures Shortest(w, k + 1, i, k) == Shortest(w, k, i, k)
    ensures Shortest(w, k + 1, k, i) == Shortest(w, k, k, i)
  {
    ShortestIsMetric(w, n, k, k, k);
  }

  /** Going through a vertex of an earlier round is never shorter. */
  lemma {:induction false} Triangle(w: Edges, n: nat, k: nat, i: int, m: int, j: int)
    requires Graph(w, n) && k <= n && 0 <= i < n && 0 <= j < n && 0 <= m < k
    ensures AtMost(Shortest(w, k, i, j), Plus(Shortest(w, k, i, m), Shortest(w, k, m, j)))
  {
    var r := k - 1;
    ShortestIsMetric(w, n, r, r, r);
    if m < r {
      Triangle(w, n, r, i, m, j);
      Triangle(w, n, r, i, m, r);
      Triangle(w, n, r, r, m, j);
      ShortestIsMetric(w, n, r, m, r);
      if m != r {
        ShortestIsMetric(w, n, r, r, m);
      }
    }
  }

  /** No path is shorter. */
  lemma {:induction false} LeastPath(w: Edges, n: nat, p: seq<int>, i: int, j: int)
    requires Graph(w, n) && 0 <= i < n && 0 <= j < n && IsPath(p, n, i, j)
    ensures AtMost(Shortest(w, n, i, j), PathLength(w, p))
  {
    if |p| == 1 {
      ShortestIsMetric(w, n, n, i, j);
    } else {
      var q := p[1..];
      assert IsPath(q, n, p[1], j);
      LeastPath(w, n, q, p[1], j);
      Triangle(w, n, n, i, p[1], j);
      RoundsShorten(w, 0, n, i, p[1]);
    }
  }

  /** Some path is as short. */
  lemma {:induction false} PathAttained(w: Edges, n: nat, k: nat, i: int, j: int) returns (p: seq<int>)
    requires Graph(w, n) && k <= n && 0 <= i < n && 0 <= j < n && Shortest(w, k, i, j).At?
    ensures IsPath(p, n, i, j) && PathLength(w, p) == Shortest(w, k, i, j)
  {
    if k == 0 {
      p := [i, j];
      OneEdge(w, i, j);
    } else {
      NextRound(w, k - 1, i, j);
      if Shortest(w, k, i, j) == Shortest(w, k - 1, i, j) {
        p := PathAttained(w, n, k - 1, i, j);
      } else {
        var first := PathAttained(w, n, k - 1, i, k - 1);
        var second := PathAttained(w, n, k - 1, k - 1, j);
        p := first + second[1..];
        PathsJoin(first, second, n, i, k - 1, j);
        Joined(w, first, second);
      }
    }
  }

  lemma PathsJoin(p: seq<int>, q: seq<int>, n: nat, i: int, m: int, j: int)
    requires IsPath(p, n, i, m) && IsPath(q, n, m, j)
    ensures IsPath(p + q[1..], n, i, j)
  {
    var joined := p + q[1..];
    assert |q| == 1 ==> joined == p;
    assert |q| > 1 ==> joined[|joined| - 1] == q[|q| - 1];
  }

  lemma OneEdge(w: Edges, i: int, j: int)
    requires w(i, j).At?
    ensures PathLength(w, [i, j]) == w(i, j)
  {
    assert [i, j][1..] == [j];
    assert PathLength(w, [j]) == At(0.0);
  }

  lemma {:induction false} Joined(w: Edges, p: seq<int>, q: seq<int>)
    requires |p| > 0 && |q| > 0 && p[|p| - 1] == q[0]
    ensures PathLength(w, p + q[1..]) == Plus(PathLength(w, p), PathLength(w, q))
  {
    var joined := p + q[1..];
    if |p| == 1 {
      assert joined == q;
      LengthFromZero(PathLength(w, q));
    } else {
      Joined(w, p[1..], q);
      assert joined[1..] == p[1..] + q[1..];
      assert joined[0] == p[0] && joined[1] == p[1];
      LengthsAssociate(w(p[0], p[1]), PathLength(w, p[1..]), PathLength(w, q));
    }
  }

  lemma LengthFromZero(r: Reach)
    ensures Plus(At(0.0), r) == r
  {
  }

  lemma LengthsAssociate(a: Reach, b: Reach, c: Reach)
    ensures Plus(a, Plus(b, c)) == Plus(Plus(a, b), c)
  {
  }

  // ── The matrix ──────────────────────────────────────────────────────────────

  /** Whether some pair of different vertices is connected. */
  ghost predicate AnyConnected(w: Edges, n: nat) {
    exists i, j :: 0 <= i < n && 0 <= j < n && i != j && Shortest(w, n, i, j).At?
  }

  ghost predicate IsLongest(w: Edges, n: nat, longest: real) {
    && (exists i, j :: 0 <= i < n && 0 <= j < n && i != j && Shortest(w, n, i, j) == At(longest))
    && forall i, j :: 0 <= i < n && 0 <= j < n && i != j && Shortest(w, n, i, j).At?
         ==> Shortest(w, n, i, j).d <= longest
  }

  /** `targets` holds the shortest distances, and `unrelated` where there is no path. */
  ghost predicate TargetMatrix(w: Edges, n: nat, targets: seq<seq<real>>, unrelated: real) {
    && StarmapStress.Square(targets, n)
    && (forall i, j :: 0 <= i < n && 0 <= j < n ==>
          targets[i][j] == if Shortest(w, n, i, j).At? then Shortest(w, n, i, j).d else unrelated)
    && (AnyConnected(w, n) ==> exists longest :: IsLongest(w, n, longest) && unrelated == longest * UNRELATED_SPREAD)
    && (!AnyConnected(w, n) ==> unrelated == BASE_EDGE)
  }

  /** Every unconnected pair lies strictly farther than any connected one. */
  lemma UnrelatedIsFarther(w: Edges, n: nat, targets: seq<seq<real>>, unrelated: real, i: int, j: int, a: int, b: int)
    requires Graph(w, n) && TargetMatrix(w, n, targets, unrelated)
    requires 0 <= i < n && 0 <= j < n && Shortest(w, n, i, j).Far?
    requires 0 <= a < n && 0 <= b < n && Shortest(w, n, a, b).At?
    ensures targets[i][j] > targets[a][b]
  {
    ShortestIsMetric(w, n, n, a, b);
    if a != b {
      assert AnyConnected(w, n);
    }
    UnrelatedPositive(w, n, targets, unrelated);
  }

  lemma UnrelatedPositive(w: Edges, n: nat, targets: seq<seq<real>>, unrelated: real)
    requires Graph(w, n) && TargetMatrix(w, n, targets, unrelated)
    ensures unrelated > 0.0
    ensures forall a, b :: 0 <= a < n && 0 <= b < n && a != b && Shortest(w, n, a, b).At?
              ==> Shortest(w, n, a, b).d < unrelated
  {
    if AnyConnected(w, n) {
      var longest :| IsLongest(w, n, longest) && unrelated == longest * UNRELATED_SPREAD;
      var i, j :| 0 <= i < n && 0 <= j < n && i != j && Shortest(w, n, i, j) == At(longest);
      ShortestIsMetric(w, n, n, i, j);
    }
  }

  /** The matrix is what stress majorisation needs: symmetric, and positive off the diagonal. */
  lemma TargetsAreSymmetricAndPositive(w: Edges, n: nat, targets: seq<seq<real>>, unrelated: real)
    requires Graph(w, n) && TargetMatrix(w, n, targets, unrelated)
    ensures StarmapStress.Targets(targets, n)
    ensures forall i :: 0 <= i < n ==> targets[i][i] == 0.0
  {
    UnrelatedPositive(w, n, targets, unrelated);
    forall i, j | 0 <= i < n && 0 <= j < n ensures targets[i][j] == targets[j][i] {
      ShortestIsMetric(w, n, n, i, j);
    }
    forall i, j | 0 <= i < n && 0 <= j < n && i != j ensures targets[i][j] > 0.0 {
      ShortestIsMetric(w, n, n, i, j);
    }
    forall i | 0 <= i < n ensures targets[i][i] == 0.0 {
      ShortestIsMetric(w, n, n, i, i);
    }
  }

  /** Connected triples obey the triangle inequality. */
  lemma ConnectedTriangle(w: Edges, n: nat, targets: seq<seq<real>>, unrelated: real, i: int, m: int, j: int)
    requires Graph(w, n) && TargetMatrix(w, n, targets, unrelated)
    requires 0 <= i < n && 0 <= m < n && 0 <= j < n
    requires Shortest(w, n, i, m).At? && Shortest(w, n, m, j).At?
    ensures Shortest(w, n, i, j).At? && targets[i][j] <= targets[i][m] + targets[m][j]
  {
    Triangle(w, n, n, i, m, j);
  }

  // ── The algorithm ───────────────────────────────────────────────────────────

  ghost function DirectTable(root: real -> real, topics: seq<string>, links: seq<Link>): Edges
    requires Links(root, links)
  {
    (i, j) => Direct(root, topics, links, i, j)
  }

  lemma {:induction false} DirectIsGraph(root: real -> real, topics: seq<string>, links: seq<Link>)
    requires Links(root, links)
    ensures Graph(DirectTable(root, topics, links), |topics|)
  {
    forall i: int, j: int
      ensures Direct(root, topics, links, i, j) == Direct(root, topics, links, j, i)
      ensures Distance(Direct(root, topics, links, i, j), i, j)
    {
      DirectIsDistance(root, topics, links, i, j);
    }
  }

  lemma {:induction false} DirectIsDistance(root: real -> real, topics: seq<string>, links: seq<Link>, i: int, j: int)
    requires Links(root, links)
    ensures Direct(root, topics, links, i, j) == Direct(root, topics, links, j, i)
    ensures Distance(Direct(root, topics, links, i, j), i, j)
  {
    if |links| > 0 {
      DirectIsDistance(root, topics, links[..|links| - 1], i, j);
      WeightRoot(root, links[|links| - 1].weight);
    }
  }

  lemma {:induction false} DirectIsAtMost(root: real -> real, topics: seq<string>, links: seq<Link>, i: int, j: int,
                                          k: nat)
    requires Links(root, links) && k < |links| && i != j && Joins(topics, links[k], i, j)
             && root(links[k].weight as real) != 0.0
    ensures AtMost(Direct(root, topics, links, i, j), At(Length(root, links[k])))
  {
    var n := |links| - 1;
    WeightRoot(root, links[n].weight);
    if k < n {
      DirectIsAtMost(root, topics, links[..n], i, j, k);
    }
  }

  lemma {:induction false} DirectIsALink(root: real -> real, topics: seq<string>, links: seq<Link>, i: int, j: int)
    returns (k: nat)
    requires Links(root, links) && i != j && Direct(root, topics, links, i, j).At?
    ensures k < |links| && Joins(topics, links[k], i, j) && root(links[k].weight as real) != 0.0
    ensures Direct(root, topics, links, i, j) == At(Length(root, links[k]))
  {
    var n := |links| - 1;
    WeightRoot(root, links[n].weight);
    k := n;
    if !Joins(topics, links[n], i, j) || Direct(root, topics, links[..n], i, j) == Direct(root, topics, links, i, j) {
      k := DirectIsALink(root, topics, links[..n], i, j);
    }
  }

  lemma NoFarther(root: real -> real, topics: seq<string>, a: seq<Link>, b: seq<Link>, i: int, j: int)
    requires Links(root, a) && Links(root, b) && forall link :: link in a ==> link in b
    ensures AtMost(Direct(root, topics, b, i, j), Direct(root, topics, a, i, j))
  {
    if i != j && Direct(root, topics, a, i, j).At? {
      var k := DirectIsALink(root, topics, a, i, j);
      assert a[k] in b;
      var m: nat :| m < |b| && b[m] == a[k];
      DirectIsAtMost(root, topics, b, i, j, m);
    }
  }

  /** The order of the links does not matter. */
  lemma OrderDoesNotMatter(root: real -> real, topics: seq<string>, a: seq<Link>, b: seq<Link>, i: int, j: int)
    requires Links(root, a) && Links(root, b) && forall link :: link in a <==> link in b
    ensures Direct(root, topics, a, i, j) == Direct(root, topics, b, i, j)
  {
    NoFarther(root, topics, a, b, i, j);
    NoFarther(root, topics, b, a, i, j);
  }

  lemma {:induction false} SameEdgesSameDistances(v: Edges, w: Edges, k: nat, i: int, j: int)
    requires forall a, b :: v(a, b) == w(a, b)
    ensures Shortest(v, k, i, j) == Shortest(w, k, i, j)
  {
    if k > 0 {
      SameEdgesSameDistances(v, w, k - 1, i, j);
      SameEdgesSameDistances(v, w, k - 1, i, k - 1);
      SameEdgesSameDistances(v, w, k - 1, k - 1, j);
    }
  }

  /** The links of a graph determine its target distances. */
  lemma TargetsAreDetermined(root: real -> real, topics: seq<string>, a: seq<Link>, b: seq<Link>,
                             s: seq<seq<real>>, far: real, t: seq<seq<real>>, far': real)
    requires Links(root, a) && Links(root, b) && forall link :: link in a <==> link in b
    requires TargetMatrix(DirectTable(root, topics, a), |topics|, s, far)
    requires TargetMatrix(DirectTable(root, topics, b), |topics|, t, far')
    ensures s == t
  {
    var n, v, w := |topics|, DirectTable(root, topics, a), DirectTable(root, topics, b);
    forall i: int, j: int ensures v(i, j) == w(i, j) {
      OrderDoesNotMatter(root, topics, a, b, i, j);
    }
    forall i: int, j: int ensures Shortest(v, n, i, j) == Shortest(w, n, i, j) {
      SameEdgesSameDistances(v, w, n, i, j);
    }
    MatricesAgree(v, w, n, s, far, t, far');
  }

  lemma MatricesAgree(v: Edges, w: Edges, n: nat, s: seq<seq<real>>, far: real, t: seq<seq<real>>, far': real)
    requires forall i, j :: Shortest(v, n, i, j) == Shortest(w, n, i, j)
    requires TargetMatrix(v, n, s, far) && TargetMatrix(w, n, t, far')
    ensures s == t
  {
    assert AnyConnected(v, n) <==> AnyConnected(w, n);
    if AnyConnected(v, n) {
      var a :| IsLongest(v, n, a) && far == a * UNRELATED_SPREAD;
      var b :| IsLongest(w, n, b) && far' == b * UNRELATED_SPREAD;
      assert a <= b && b <= a;
    }
    forall i | 0 <= i < n ensures s[i] == t[i] {
      forall j | 0 <= j < n ensures s[i][j] == t[i][j] {
      }
    }
  }

  method TargetDistances(root: real -> real, topics: seq<string>, links: seq<Link>)
    returns (targets: seq<seq<real>>)
    requires Links(root, links) && Distinct(topics)
    ensures exists unrelated :: TargetMatrix(DirectTable(root, topics, links), |topics|, targets, unrelated)
  {
    var size := |topics|;
    ghost var w := DirectTable(root, topics, links);
    DirectIsGraph(root, topics, links);
    var distances := new Reach[size, size]((i, j) => if i == j then At(0.0) else Far);
    for k := 0 to |links|
      invariant forall i, j :: 0 <= i < size && 0 <= j < size ==>
                  distances[i, j] == Direct(root, topics, links[..k], i, j)
    {
      AddLink(root, topics, links, k, distances);
    }
    assert links[..|links|] == links;
    for through := 0 to size
      invariant forall i, j :: 0 <= i < size && 0 <= j < size ==> distances[i, j] == Shortest(w, through, i, j)
    {
      Relax(w, size, through, distances);
    }
    var spread := Spread(w, size, distances);
    targets := seq(size, i requires 0 <= i < size reads distances =>
      seq(size, j requires 0 <= j < size reads distances =>
        if distances[i, j].At? then distances[i, j].d else spread));
    assert TargetMatrix(w, size, targets, spread);
  }

  /** One link shortens the distance of its two topics, both ways. */
  method AddLink(root: real -> real, topics: seq<string>, links: seq<Link>, k: nat, distances: array2<Reach>)
    requires Links(root, links) && Distinct(topics) && k < |links|
    requires distances.Length0 == distances.Length1 == |topics|
    requires forall i, j :: 0 <= i < |topics| && 0 <= j < |topics|
               ==> distances[i, j] == Direct(root, topics, links[..k], i, j)
    modifies distances
    ensures forall i, j :: 0 <= i < |topics| && 0 <= j < |topics|
              ==> distances[i, j] == Direct(root, topics, links[..k + 1], i, j)
  {
    var link := links[k];
    assert links[..k + 1][..k] == links[..k];
    var left, right := LastIndex(topics, link.left), LastIndex(topics, link.right);
    if left == -1 || right == -1 {
      return;
    }
    WeightRoot(root, link.weight);
    var shorter := Shorter(distances[left, right], At(Length(root, link)));
    DirectIsDistance(root, topics, links[..k], left, right);
    distances[left, right] := shorter;
    distances[right, left] := shorter;
  }

  /** One round of relaxation, in place: every cell may go through `through`. */
  method Relax(ghost w: Edges, size: nat, through: nat, distances: array2<Reach>)
    requires Graph(w, size) && through < size && distances.Length0 == distances.Length1 == size
    requires forall i, j :: 0 <= i < size && 0 <= j < size ==> distances[i, j] == Shortest(w, through, i, j)
    modifies distances
    ensures forall i, j :: 0 <= i < size && 0 <= j < size ==> distances[i, j] == Shortest(w, through + 1, i, j)
  {
    for i := 0 to size
      invariant forall a, b :: 0 <= a < i && 0 <= b < size ==> distances[a, b] == Shortest(w, through + 1, a, b)
      invariant forall a, b :: i <= a < size && 0 <= b < size ==> distances[a, b] == Shortest(w, through, a, b)
    {
      for j := 0 to size
        invariant forall a, b :: 0 <= a < size && 0 <= b < size && (a < i || (a == i && b < j))
                    ==> distances[a, b] == Shortest(w, through + 1, a, b)
        invariant forall a, b :: 0 <= a < size && 0 <= b < size && (a > i || (a == i && b >= j))
                    ==> distances[a, b] == Shortest(w, through, a, b)
      {
        OwnRound(w, size, through, i);
        OwnRound(w, size, through, j);
        NextRound(w, through, i, j);
        var relayed := Plus(distances[i, through], distances[through, j]);
        if Less(relayed, distances[i, j]) {
          distances[i, j] := relayed;
        }
      }
    }
  }

  /** The distance of the unconnected pairs: well beyond the longest connected one. */
  method Spread(ghost w: Edges, size: nat, distances: array2<Reach>) returns (spread: real)
    requires distances.Length0 == distances.Length1 == size
    requires forall i, j :: 0 <= i < size && 0 <= j < size ==> distances[i, j] == Shortest(w, size, i, j)
    ensures AnyConnected(w, size) ==>
              exists longest :: IsLongest(w, size, longest) && spread == longest * UNRELATED_SPREAD
    ensures !AnyConnected(w, size) ==> spread == BASE_EDGE
  {
    var longest := Far;
    for i := 0 to size
      invariant LongestSoFar(w, size, i, 0, longest)
    {
      for j := 0 to size
        invariant LongestSoFar(w, size, i, j, longest)
      {
        if i != j && distances[i, j].At? && (longest.Far? || longest.d < distances[i, j].d) {
          longest := distances[i, j];
        }
      }
    }
    if longest.At? {
      assert IsLongest(w, size, longest.d);
      spread := longest.d * UNRELATED_SPREAD;
    } else {
      spread := BASE_EDGE;
    }
  }

  /** `longest` is the longest connected distance among the pairs before `(i, j)`. */
  ghost predicate LongestSoFar(w: Edges, n: nat, i: int, j: int, longest: Reach) {
    && (longest.At? ==> exists a, b :: 0 <= a < n && 0 <= b < n && a != b && Shortest(w, n, a, b) == longest)
    && forall a, b :: 0 <= a < n && 0 <= b < n && a != b && (a < i || (a == i && b < j)) && Shortest(w, n, a, b).At?
         ==> longest.At? && Shortest(w, n, a, b).d <= longest.d
  }
}
