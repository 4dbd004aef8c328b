/** Structuring the knowledge points of `scripts/knowledge_base_import.py`, the first pass: every
    coarse group split into stars. */
module CurriculumStructure {
  import opened Lists
  import opened Decimals
  import opened Options
  import opened Sorting

  const MAX_STAR_SLUG: nat := 48

  datatype Point = Point(id: string, subject: string, group: string, grade: int, sourceId: string)

  /** A star a structurer offers. `sound` says whether its slug, titles and description pass the
      text checks. */
  datatype Offer = Offer(group: string, slug: string, points: seq<string>, sound: bool)

  datatype Star = Star(topic: string, subject: string, points: seq<string>, low: int, high: int)

  /** `number` is the number in the exercise's id; `tooLong` whether one of its texts is. */
  datatype Exercise = Exercise(id: string, sourceId: string, point: string, number: nat, tooLong: bool)

  /** The question types of a subject, in catalogue order. */
  type Types = string -> seq<string>

  datatype Catalog = Catalog(topicOf: string -> string, zapUnits: set<string>, maxPoints: nat, types: Types)

  datatype Problem =
    | Misplaced(group: string)
    | Unsound(group: string, slug: string)
    | WrongType(exercise: string)
    | MergeMisplaced(nebula: string)
    | MergeUnsound(nebula: string, slug: string)

  type Stars = map<string, Star>

  type PointStar = map<string, string>

  // ── Partitions ──────────────────────────────────────────────────────────────

  ghost predicate NoRepeats<T>(s: seq<T>) {
    forall i, j :: 0 <= i < j < |s| ==> s[i] != s[j]
  }

  /** Every id is in exactly one star, once, and the stars hold nothing else. */
  ghost predicate Splits(stars: Stars, ids: set<string>) {
    && (forall u :: u in stars ==> NoRepeats(stars[u].points))
    && Disjoint(stars)
    && (forall u, p :: u in stars && p in stars[u].points ==> p in ids)
    && (forall p :: p in ids ==> Held(stars, p))
  }

  ghost predicate Disjoint(stars: Stars) {
    forall u, v, p :: u in stars && v in stars && p in stars[u].points && p in stars[v].points ==> u == v
  }

  ghost predicate Held(stars: Stars, p: string) {
    exists u :: u in stars && p in stars[u].points
  }

  /** The map from points to stars says where every id is. */
  ghost predicate Agrees(stars: Stars, pointStar: PointStar, ids: set<string>) {
    && pointStar.Keys == ids
    && forall p :: p in ids ==> pointStar[p] in stars && p in stars[pointStar[p]].points
  }

  function Set<T>(s: seq<T>): set<T> {
    set x | x in s
  }

  lemma StarAdded(stars: Stars, ids: set<string>, unit: string, star: Star)
    requires Splits(stars, ids) && unit !in stars && NoRepeats(star.points) && Set(star.points) !! ids
    ensures Splits(stars[unit := star], ids + Set(star.points))
  {
    var more := stars[unit := star];
    forall u, p | u in stars && p in stars[u].points ensures p !in star.points {
      assert p in ids && (p in star.points ==> p in Set(star.points));
    }
    forall u, p | u in more && p in more[u].points ensures p in ids + Set(star.points) {
      assert u == unit || p in stars[u].points;
    }
    forall p | p in ids + Set(star.points) ensures Held(more, p) {
      if p in ids {
        var u :| u in stars && p in stars[u].points;
        assert u in more && p in more[u].points;
      } else {
        assert unit in more && p in more[unit].points;
      }
    }
  }

  function Assigned(pointStar: PointStar, points: seq<string>, unit: string): PointStar {
    pointStar + map p | p in points :: unit
  }

  lemma StarAssigned(stars: Stars, pointStar: PointStar, ids: set<string>, unit: string, star: Star)
    requires Agrees(stars, pointStar, ids) && unit !in stars && Set(star.points) !! ids
    ensures Agrees(stars[unit := star], Assigned(pointStar, star.points, unit), ids + Set(star.points))
  {
  }

  // ── Names ───────────────────────────────────────────────────────────────────

  /** The `i`-th name tried for a unit: the base, then the base with 2, 3 and so on. */
  function Candidate(base: string, i: nat): string {
    if i <= 1 then base else base + "-" + Text(i)
  }

  lemma CandidatesDiffer(base: string, i: nat, j: nat)
    requires 1 <= i && 1 <= j && Candidate(base, i) == Candidate(base, j)
    ensures i == j
  {
    if i > 1 && j > 1 {
      var prefix := |base + "-"|;
      assert Candidate(base, i)[prefix..] == Text(i);
      assert Candidate(base, j)[prefix..] == Text(j);
      TextsDiffer(i, j);
    } else if i > 1 {
      NumberedIsLonger(base, i);
    } else if j > 1 {
      NumberedIsLonger(base, j);
    }
  }

  lemma NumberedIsLonger(base: string, i: nat)
    requires i > 1
    ensures |Candidate(base, i)| > |base|
  {
  }

  /** The first candidate for a name that is not taken. */
  ghost predicate FirstFree(unit: string, base: string, taken: set<string>) {
    && unit !in taken
    && exists i: nat :: i >= 1 && unit == Candidate(base, i)
                        && forall j: nat :: 1 <= j < i ==> Candidate(base, j) in taken
  }

  /** The first free candidate from the `i`-th on. A name that is taken is tried once only. */
  function FreeName(base: string, taken: set<string>, i: nat): string
    decreases taken
  {
    var name := Candidate(base, i);
    if name in taken then FreeName(base, taken - {name}, i + 1) else name
  }

  lemma {:induction false} FreeNameComesFirst(base: string, taken: set<string>, i: nat)
    requires i >= 1
    ensures exists j: nat :: j >= i && FreeName(base, taken, i) == Candidate(base, j) && Candidate(base, j) !in taken
                             && forall k: nat :: i <= k < j ==> Candidate(base, k) in taken
    decreases taken
  {
    var name := Candidate(base, i);
    if name in taken {
      FreeNameComesFirst(base, taken - {name}, i + 1);
      var j: nat :| j >= i + 1 && FreeName(base, taken - {name}, i + 1) == Candidate(base, j)
        && Candidate(base, j) !in taken - {name}
        && forall k: nat :: i + 1 <= k < j ==> Candidate(base, k) in taken - {name};
      if Candidate(base, j) == name {
        CandidatesDiffer(base, i, j);
      }
    }
  }

  lemma FreeNameIsFirst(base: string, taken: set<string>)
    ensures FirstFree(FreeName(base, taken, 1), base, taken)
  {
    FreeNameComesFirst(base, taken, 1);
  }

  lemma FirstFreeIsUnique(a: string, b: string, base: string, taken: set<string>)
    requires FirstFree(a, base, taken) && FirstFree(b, base, taken)
    ensures a == b
  {
    var i: nat :| i >= 1 && a == Candidate(base, i) && forall j: nat :: 1 <= j < i ==> Candidate(base, j) in taken;
    var j: nat :| j >= 1 && b == Candidate(base, j) && forall k: nat :: 1 <= k < j ==> Candidate(base, k) in taken;
    assert i >= j && j >= i;
  }

  /** The first name not taken: the renaming loop ends, because every name it tries is new. */
  method FreshName(base: string, taken: set<string>) returns (unit: string)
    ensures FirstFree(unit, base, taken) && unit == FreeName(base, taken, 1)
  {
    var n: nat := 2;
    unit := base;
    ghost var tried: set<string> := {};
    while unit in taken
      invariant n >= 2 && unit == Candidate(base, n - 1)
      invariant tried <= taken
      invariant forall j: nat :: 1 <= j < n - 1 ==> Candidate(base, j) in taken
      invariant forall x :: x in tried ==> exists j: nat :: 1 <= j < n - 1 && x == Candidate(base, j)
      decreases taken - tried
    {
      if unit in tried {
        var j: nat :| 1 <= j < n - 1 && unit == Candidate(base, j);
        CandidatesDiffer(base, j, n - 1);
      }
      tried := tried + {unit};
      unit, n := base + "-" + Text(n), n + 1;
    }
    FreeNameIsFirst(base, taken);
    FirstFreeIsUnique(unit, FreeName(base, taken, 1), base, taken);
  }

  function BaseName(nebula: string, slug: string): string {
    var name := nebula + "-" + slug;
    if |name| <= |nebula| + 1 + MAX_STAR_SLUG then name else name[..|nebula| + 1 + MAX_STAR_SLUG]
  }

  /** A star's name starts from its nebula and slug, cut to leave the slug 48 characters. */
  lemma BaseNameIs(nebula: string, slug: string)
    ensures BaseName(nebula, slug) <= nebula + "-" + slug
    ensures |slug| <= MAX_STAR_SLUG ==> BaseName(nebula, slug) == nebula + "-" + slug
    ensures |slug| > MAX_STAR_SLUG ==> BaseName(nebula, slug) == nebula + "-" + slug[..MAX_STAR_SLUG]
  {
    var name := nebula + "-" + slug;
    if |slug| > MAX_STAR_SLUG {
      assert name[..|nebula| + 1 + MAX_STAR_SLUG] == nebula + "-" + slug[..MAX_STAR_SLUG];
    }
  }

  // ── Splitting the groups ────────────────────────────────────────────────────

  ghost predicate DistinctIds(points: seq<Point>) {
    forall i, j :: 0 <= i < j < |points| ==> points[i].id != points[j].id
  }

  function Ids(points: seq<Point>): (ids: seq<string>)
    ensures |ids| == |points|
  {
    seq(|points|, k requires 0 <= k < |points| => points[k].id)
  }

  function ById(points: seq<Point>): (m: map<string, Point>)
    ensures m.Keys == set k | 0 <= k < |points| :: points[k].id
  {
    if |points| == 0 then map[]
    else
      var n := |points| - 1;
      assert forall k :: 0 <= k < n ==> points[..n][k] == points[k];
      ById(points[..n])[points[n].id := points[n]]
  }

  lemma {:induction false} ByIdAt(points: seq<Point>, k: nat)
    requires DistinctIds(points) && k < |points|
    ensures points[k].id in ById(points) && ById(points)[points[k].id] == points[k]
  {
    if k < |points| - 1 {
      ByIdAt(points[..|points| - 1], k);
    }
  }

  /** The ids of one group, in order. */
  function Members(points: seq<Point>, group: string): seq<string> {
    if |points| == 0 then []
    else
      var n := |points| - 1;
      Members(points[..n], group) + if points[n].group == group then [points[n].id] else []
  }

  /** The groups of the points, in order of first appearance. */
  function Groups(points: seq<Point>): seq<string> {
    if |points| == 0 then []
    else
      var n := |points| - 1;
      var rest := Groups(points[..n]);
      if points[n].group in rest then rest else rest + [points[n].group]
  }

  function OffersOf(offers: seq<Offer>, group: string): seq<Offer> {
    if |offers| == 0 then []
    else
      var n := |offers| - 1;
      OffersOf(offers[..n], group) + if offers[n].group == group then [offers[n]] else []
  }

  /** A group's members are the ids of its points, picked in order. */
  lemma {:induction false} MembersPick(points: seq<Point>, group: string) returns (picked: seq<Point>)
    ensures Picks(picked, points, (p: Point) => p.group == group) && Members(points, group) == Ids(picked)
  {
    if |points| == 0 {
      picked := [];
      PicksNone<Point>((p: Point) => p.group == group);
    } else {
      var n := |points| - 1;
      var before := MembersPick(points[..n], group);
      PicksOneMore(before, points, (p: Point) => p.group == group);
      picked := before + if points[n].group == group then [points[n]] else [];
    }
  }

  /** The groups come in the order in which they first appear. */
  lemma {:induction false} GroupsInOrder(points: seq<Point>) returns (at: seq<int>)
    ensures |at| == |Groups(points)|
    ensures forall i :: 0 <= i < |at| ==>
              && 0 <= at[i] < |points| && points[at[i]].group == Groups(points)[i]
              && forall m :: 0 <= m < at[i] ==> points[m].group != Groups(points)[i]
    ensures forall i, j :: 0 <= i < j < |at| ==> at[i] < at[j]
  {
    if |points| == 0 {
      at := [];
    } else {
      var n := |points| - 1;
      at := GroupsInOrder(points[..n]);
      GroupsAre(points[..n], points[n].group);
      assert forall k :: 0 <= k < n ==> points[..n][k] == points[k];
      if points[n].group !in Groups(points[..n]) {
        at := at + [n];
      }
    }
  }

  /** The offers of a group are picked in order. */
  lemma {:induction false} OffersPick(offers: seq<Offer>, group: string)
    ensures Picks(OffersOf(offers, group), offers, (o: Offer) => o.group == group)
  {
    if |offers| == 0 {
      PicksNone<Offer>((o: Offer) => o.group == group);
    } else {
      OffersPick(offers[..|offers| - 1], group);
      PicksOneMore(OffersOf(offers[..|offers| - 1], group), offers, (o: Offer) => o.group == group);
    }
  }

  /** The point lists of the offers. */
  function Placements(offers: seq<Offer>): (lists: seq<seq<string>>)
    ensures |lists| == |offers|
  {
    seq(|offers|, k requires 0 <= k < |offers| => offers[k].points)
  }

  lemma {:induction false} MembersAre(points: seq<Point>, group: string, id: string)
    ensures id in Members(points, group)
            <==> exists k :: 0 <= k < |points| && points[k].group == group && points[k].id == id
  {
    if |points| > 0 {
      var n := |points| - 1;
      MembersAre(points[..n], group, id);
      assert forall k :: 0 <= k < n ==> points[..n][k] == points[k];
      if id in Members(points, group) && id !in Members(points[..n], group) {
        assert points[n].group == group && points[n].id == id;
      }
    }
  }

  lemma {:induction false} MembersDoNotRepeat(points: seq<Point>, group: string)
    requires DistinctIds(points)
    ensures NoRepeats(Members(points, group))
  {
    if |points| > 0 {
      var n := |points| - 1;
      MembersDoNotRepeat(points[..n], group);
      MembersAre(points[..n], group, points[n].id);
    }
  }

  lemma {:induction false} GroupsAre(points: seq<Point>, group: string)
    ensures group in Groups(points) <==> exists k :: 0 <= k < |points| && points[k].group == group
  {
    if |points| > 0 {
      var n := |points| - 1;
      GroupsAre(points[..n], group);
      assert forall k :: 0 <= k < n ==> points[..n][k] == points[k];
      assert points[n].group == points[n].group;
    }
  }

  lemma {:induction false} GroupsDoNotRepeat(points: seq<Point>)
    ensures NoRepeats(Groups(points))
  {
    if |points| > 0 {
      GroupsDoNotRepeat(points[..|points| - 1]);
    }
  }

  /** A list with the same members, repeats counted, as one without repeats has none either. */
  lemma SameMembersDoNotRepeat(a: seq<string>, b: seq<string>)
    requires multiset(a) == multiset(b) && NoRepeats(b)
    ensures NoRepeats(a) && Set(a) == Set(b)
  {
    forall x ensures multiset(a)[x] <= 1 {
      OccursOnce(b, x);
    }
    forall i, j | 0 <= i < j < |a| ensures a[i] != a[j] {
      if a[i] == a[j] {
        TwiceCounted(a, i, j);
      }
    }
    forall x ensures x in Set(a) <==> x in Set(b) {
      assert x in multiset(a) <==> x in a;
      assert x in multiset(b) <==> x in b;
    }
  }

  lemma {:induction false} OccursOnce<T>(s: seq<T>, x: T)
    requires NoRepeats(s)
    ensures multiset(s)[x] <= 1
  {
    if |s| > 0 {
      var n := |s| - 1;
      assert s == s[..n] + [s[n]];
      OccursOnce(s[..n], x);
      if s[n] == x {
        assert x !in s[..n];
        assert x !in multiset(s[..n]);
      }
    }
  }

  lemma TwiceCounted<T>(s: seq<T>, i: int, j: int)
    requires 0 <= i < j < |s| && s[i] == s[j]
    ensures multiset(s)[s[i]] >= 2
  {
    assert s == s[..i] + [s[i]] + s[i + 1..j] + [s[j]] + s[j + 1..];
  }

  lemma HalvesDoNotRepeat<T>(a: seq<T>, b: seq<T>)
    requires NoRepeats(a + b)
    ensures NoRepeats(a) && NoRepeats(b) && Set(a) !! Set(b)
  {
    var s := a + b;
    forall i, j | 0 <= i < j < |a| ensures a[i] != a[j] {
      assert s[i] == a[i] && s[j] == a[j];
    }
    forall i, j | 0 <= i < j < |b| ensures b[i] != b[j] {
      assert s[|a| + i] == b[i] && s[|a| + j] == b[j];
    }
    forall x | x in a ensures x !in b {
      var i :| 0 <= i < |a| && a[i] == x;
      forall j | 0 <= j < |b| ensures b[j] != x {
        assert s[i] == a[i] && s[|a| + j] == b[j];
      }
    }
  }

  lemma JoinDoesNotRepeat<T>(a: seq<T>, b: seq<T>)
    requires NoRepeats(a) && NoRepeats(b) && forall x :: x in a ==> x !in b
    ensures NoRepeats(a + b)
  {
    forall i, j | 0 <= i < j < |a + b| ensures (a + b)[i] != (a + b)[j] {
      if i < |a| <= j {
        assert a[i] in a && b[j - |a|] in b;
      }
    }
  }

  /** How a joined list is cut: what lies before list `k`, and that list. */
  lemma {:induction false} JoinedSplits<T>(lists: seq<seq<T>>, k: nat)
    requires k < |lists| && NoRepeats(Joined(lists))
    ensures NoRepeats(lists[k])
    ensures Set(lists[k]) !! Set(Joined(lists[..k]))
    ensures Set(Joined(lists[..k + 1])) == Set(Joined(lists[..k])) + Set(lists[k])
    ensures Set(lists[k]) <= Set(Joined(lists))
  {
    var n := |lists| - 1;
    HalvesDoNotRepeat(Joined(lists[..n]), lists[n]);
    if k < n {
      JoinedSplits(lists[..n], k);
      assert lists[..n][..k] == lists[..k] && lists[..n][..k + 1] == lists[..k + 1];
      forall x | x in lists[k] ensures x in Joined(lists) {
        assert x in Set(Joined(lists[..n]));
      }
    } else {
      assert lists[..n + 1] == lists && lists[..n + 1][..n] == lists[..n];
    }
  }

  /** The point of an id. */
  function PointAt(byId: map<string, Point>, p: string): Point {
    if p in byId then byId[p] else Point("", "", "", 0, "")
  }

  function GradeOf(byId: map<string, Point>, p: string): int {
    PointAt(byId, p).grade
  }

  function SourceOf(byId: map<string, Point>, p: string): string {
    PointAt(byId, p).sourceId
  }

  function LeastGrade(points: map<string, Point>, ids: seq<string>): (grade: int)
    requires |ids| > 0
    ensures forall p :: p in ids ==> grade <= GradeOf(points, p)
    ensures exists p :: p in ids && GradeOf(points, p) == grade
  {
    var first := GradeOf(points, ids[0]);
    if |ids| == 1 then assert ids[0] in ids; first
    else
      var rest := LeastGrade(points, ids[1..]);
      assert forall p :: p in ids ==> p == ids[0] || p in ids[1..];
      assert ids[0] in ids;
      if first < rest then first else rest
  }

  function GreatestGrade(points: map<string, Point>, ids: seq<string>): (grade: int)
    requires |ids| > 0
    ensures forall p :: p in ids ==> GradeOf(points, p) <= grade
    ensures exists p :: p in ids && GradeOf(points, p) == grade
  {
    var first := GradeOf(points, ids[0]);
    if |ids| == 1 then assert ids[0] in ids; first
    else
      var rest := GreatestGrade(points, ids[1..]);
      assert forall p :: p in ids ==> p == ids[0] || p in ids[1..];
      assert ids[0] in ids;
      if first > rest then first else rest
  }

  predicate IsSound(catalog: Catalog, sound: bool, count: nat) {
    sound && count <= catalog.maxPoints
  }

  /** What has been built so far: the stars, where every point is, and what was wrong. */
  datatype Draft = Draft(stars: Stars, pointStar: PointStar, problems: seq<Problem>)

  /** A draft splits the points it placed, which are all of `ids` when it has no problems. */
  ghost predicate Sound(catalog: Catalog, byId: map<string, Point>, draft: Draft, ids: set<string>) {
    && Splits(draft.stars, draft.pointStar.Keys)
    && Agrees(draft.stars, draft.pointStar, draft.pointStar.Keys)
    && AllFit(catalog, byId, draft.stars)
    && draft.pointStar.Keys <= ids
    && (draft.problems == [] ==> draft.pointStar.Keys == ids)
  }

  /** A star holds one to `maxPoints` points of its own nebula, its grades are the least and the
      greatest of theirs, and its subject is one of theirs. */
  ghost predicate Fits(catalog: Catalog, byId: map<string, Point>, star: Star) {
    && 1 <= |star.points| <= catalog.maxPoints
    && (forall p :: p in star.points ==> p in byId && catalog.topicOf(byId[p].group) == star.topic
                                         && star.low <= byId[p].grade <= star.high)
    && (exists p :: p in star.points && p in byId && byId[p].grade == star.low)
    && (exists p :: p in star.points && p in byId && byId[p].grade == star.high)
    && (exists p :: p in star.points && p in byId && byId[p].subject == star.subject)
  }

  ghost predicate AllFit(catalog: Catalog, byId: map<string, Point>, stars: Stars) {
    forall u :: u in stars ==> Fits(catalog, byId, stars[u])
  }

  /** The star of some points of a group, of the first one's subject. */
  ghost predicate IsOffered(star: Star, catalog: Catalog, byId: map<string, Point>, group: string,
                            points: seq<string>) {
    && |points| > 0 && points[0] in byId
    && star.topic == catalog.topicOf(group) && star.subject == byId[points[0]].subject && star.points == points
    && Fits(catalog, byId, star)
  }

  /** A draft with one star more, under the first free name of its nebula and slug. */
  ghost predicate PlacedAs(draft: Draft, unit: string, star: Star, catalog: Catalog, byId: map<string, Point>,
                           group: string, offer: Offer, before: Draft) {
    && IsOffered(star, catalog, byId, group, offer.points)
    && FirstFree(unit, BaseName(star.topic, offer.slug), before.stars.Keys + catalog.zapUnits)
    && draft.stars == before.stars[unit := star]
    && draft.pointStar == Assigned(before.pointStar, offer.points, unit)
  }

  /** The star of some points, its grades the least and the greatest of theirs. */
  function StarOf(byId: map<string, Point>, topic: string, subject: string, points: seq<string>): Star
    requires points != []
  {
    Star(topic, subject, points, LeastGrade(byId, points), GreatestGrade(byId, points))
  }

  /** One star more, under the first free name of its nebula and slug. */
  function Named(catalog: Catalog, stars: Stars, slug: string, star: Star): Stars {
    stars[FreeName(BaseName(star.topic, slug), stars.Keys + catalog.zapUnits, 1) := star]
  }

  /** The stars after an offer of a group: one more when the offer is sound and holds a point. */
  function WithOffer(catalog: Catalog, byId: map<string, Point>, group: string, offer: Offer, stars: Stars): Stars {
    if IsSound(catalog, offer.sound, |offer.points|) && offer.points != [] then
      var subject := PointAt(byId, offer.points[0]).subject;
      Named(catalog, stars, offer.slug, StarOf(byId, catalog.topicOf(group), subject, offer.points))
    else stars
  }

  function WithOffers(catalog: Catalog, byId: map<string, Point>, group: string, offers: seq<Offer>,
                      stars: Stars): Stars {
    if |offers| == 0 then stars
    else
      var n := |offers| - 1;
      WithOffer(catalog, byId, group, offers[n], WithOffers(catalog, byId, group, offers[..n], stars))
  }

  /** The stars of the first groups, each group's when its offers place every member once. */
  function StarsOf(catalog: Catalog, points: seq<Point>, offers: seq<Offer>, groups: seq<string>): Stars {
    if |groups| == 0 then map[]
    else
      var n := |groups| - 1;
      var before := StarsOf(catalog, points, offers, groups[..n]);
      if PlacesAll(Members(points, groups[n]), OffersOf(offers, groups[n])) then
        WithOffers(catalog, ById(points), groups[n], OffersOf(offers, groups[n]), before)
      else before
  }

  /** The stars of the first pass. */
  function FirstStars(catalog: Catalog, points: seq<Point>, offers: seq<Offer>): Stars {
    StarsOf(catalog, points, offers, Groups(points))
  }

  lemma MoreOffers(catalog: Catalog, byId: map<string, Point>, group: string, offers: seq<Offer>, stars: Stars, k: nat)
    requires k < |offers|
    ensures WithOffers(catalog, byId, group, offers[..k + 1], stars)
         == WithOffer(catalog, byId, group, offers[k], WithOffers(catalog, byId, group, offers[..k], stars))
  {
    assert offers[..k + 1][..k] == offers[..k];
  }

  lemma MoreGroups(catalog: Catalog, points: seq<Point>, offers: seq<Offer>, groups: seq<string>, k: nat)
    requires k < |groups|
    ensures StarsOf(catalog, points, offers, groups[..k + 1])
         == if PlacesAll(Members(points, groups[k]), OffersOf(offers, groups[k])) then
              WithOffers(catalog, ById(points), groups[k], OffersOf(offers, groups[k]),
                         StarsOf(catalog, points, offers, groups[..k]))
            else StarsOf(catalog, points, offers, groups[..k])
  {
    assert groups[..k + 1][..k] == groups[..k];
  }

  /** One offered star of a group whose points are all placed, or nothing when building it raises:
      a star without points has no least grade. */
  method PlaceStar(catalog: Catalog, byId: map<string, Point>, group: string, offer: Offer, before: Draft,
                   ghost ids: set<string>)
    returns (draft: Option<Draft>)
    requires forall p :: p in offer.points ==> p in byId && byId[p].group == group
    requires Sound(catalog, byId, before, ids) && NoRepeats(offer.points) && Set(offer.points) !! ids
    ensures draft.Some? ==> Sound(catalog, byId, draft.value, ids + Set(offer.points))
    ensures draft.None? <==> IsSound(catalog, offer.sound, |offer.points|) && offer.points == []
    ensures draft.Some? ==> draft.value.problems == before.problems + OfferProblem(catalog, group, offer)
    ensures draft.Some? && IsSound(catalog, offer.sound, |offer.points|) ==>
              exists unit, star :: PlacedAs(draft.value, unit, star, catalog, byId, group, offer, before)
    ensures draft.Some? && !IsSound(catalog, offer.sound, |offer.points|) ==>
              draft.value.stars == before.stars && draft.value.pointStar == before.pointStar
    ensures draft.Some? ==> draft.value.stars == WithOffer(catalog, byId, group, offer, before.stars)
  {
    if !IsSound(catalog, offer.sound, |offer.points|) {
      StarRefused(catalog, byId, before, ids, Set(offer.points), Unsound(group, offer.slug));
      return Some(before.(problems := before.problems + [Unsound(group, offer.slug)]));
    }
    NoneMore(before.problems);
    var nebula := catalog.topicOf(group);
    var unit := FreshName(BaseName(nebula, offer.slug), before.stars.Keys + catalog.zapUnits);
    if offer.points == [] {
      return None;
    }
    var star := Star(nebula, byId[offer.points[0]].subject, offer.points,
                     LeastGrade(byId, offer.points), GreatestGrade(byId, offer.points));
    StarFits(catalog, byId, group, star);
    StarPlaced(catalog, byId, before, ids, unit, star);
    var after := Draft(before.stars[unit := star], Assigned(before.pointStar, offer.points, unit), before.problems);
    assert PlacedAs(after, unit, star, catalog, byId, group, offer, before);
    return Some(after);
  }

  lemma StarRefused(catalog: Catalog, byId: map<string, Point>, before: Draft, ids: set<string>, more: set<string>,
                    problem: Problem)
    requires Sound(catalog, byId, before, ids)
    ensures Sound(catalog, byId, before.(problems := before.problems + [problem]), ids + more)
  {
  }

  /** A star of points of its group fits. */
  lemma StarFits(catalog: Catalog, byId: map<string, Point>, group: string, star: Star)
    requires 1 <= |star.points| <= catalog.maxPoints && star.topic == catalog.topicOf(group)
    requires forall p :: p in star.points ==> p in byId && byId[p].group == group
    requires star.low == LeastGrade(byId, star.points) && star.high == GreatestGrade(byId, star.points)
    requires star.subject == PointAt(byId, star.points[0]).subject
    ensures Fits(catalog, byId, star)
  {
    assert star.points[0] in star.points;
  }

  lemma StarPlaced(catalog: Catalog, byId: map<string, Point>, before: Draft, ids: set<string>, unit: string,
                   star: Star)
    requires Sound(catalog, byId, before, ids) && unit !in before.stars
    requires NoRepeats(star.points) && Set(star.points) !! ids && Fits(catalog, byId, star)
    ensures Sound(catalog, byId,
                  Draft(before.stars[unit := star], Assigned(before.pointStar, star.points, unit), before.problems),
                  ids + Set(star.points))
  {
    StarAdded(before.stars, before.pointStar.Keys, unit, star);
    StarAssigned(before.stars, before.pointStar, before.pointStar.Keys, unit, star);
    assert Assigned(before.pointStar, star.points, unit).Keys == before.pointStar.Keys + Set(star.points);
  }

  predicate IsEmptyOffer(catalog: Catalog, offer: Offer) {
    IsSound(catalog, offer.sound, |offer.points|) && offer.points == []
  }

  predicate SomeEmpty(catalog: Catalog, offers: seq<Offer>) {
    exists k :: 0 <= k < |offers| && IsEmptyOffer(catalog, offers[k])
  }

  function OfferProblem(catalog: Catalog, group: string, offer: Offer): seq<Problem> {
    if IsSound(catalog, offer.sound, |offer.points|) then [] else [Unsound(group, offer.slug)]
  }

  function OfferProblems(catalog: Catalog, group: string, offers: seq<Offer>): seq<Problem> {
    if |offers| == 0 then []
    else
      var n := |offers| - 1;
      OfferProblems(catalog, group, offers[..n]) + OfferProblem(catalog, group, offers[n])
  }

  /** The offers of a group place every member exactly once. */
  predicate PlacesAll(members: seq<string>, offers: seq<Offer>) {
    multiset(Joined(Placements(offers))) == multiset(members)
  }

  function GroupProblems(catalog: Catalog, group: string, members: seq<string>, offers: seq<Offer>): seq<Problem> {
    if PlacesAll(members, offers) then OfferProblems(catalog, group, offers) else [Misplaced(group)]
  }

  function StructureProblems(catalog: Catalog, points: seq<Point>, offers: seq<Offer>,
                             groups: seq<string>): seq<Problem> {
    if |groups| == 0 then []
    else
      var n := |groups| - 1;
      StructureProblems(catalog, points, offers, groups[..n])
      + GroupProblems(catalog, groups[n], Members(points, groups[n]), OffersOf(offers, groups[n]))
  }

  predicate AllSound(catalog: Catalog, offers: seq<Offer>) {
    forall k :: 0 <= k < |offers| ==> IsSound(catalog, offers[k].sound, |offers[k].points|)
  }

  lemma {:induction false} NoOfferProblems(catalog: Catalog, group: string, offers: seq<Offer>)
    ensures OfferProblems(catalog, group, offers) == [] <==> AllSound(catalog, offers)
  {
    if |offers| > 0 {
      NoOfferProblems(catalog, group, offers[..|offers| - 1]);
    }
  }

  predicate WellOffered(catalog: Catalog, points: seq<Point>, offers: seq<Offer>, group: string) {
    PlacesAll(Members(points, group), OffersOf(offers, group)) && AllSound(catalog, OffersOf(offers, group))
  }

  lemma NoGroupProblems(catalog: Catalog, points: seq<Point>, offers: seq<Offer>, group: string)
    ensures GroupProblems(catalog, group, Members(points, group), OffersOf(offers, group)) == []
            <==> WellOffered(catalog, points, offers, group)
  {
    NoOfferProblems(catalog, group, OffersOf(offers, group));
  }

  /** Structuring has no problems exactly when every group is well offered. */
  lemma {:induction false} NoStructureProblems(catalog: Catalog, points: seq<Point>, offers: seq<Offer>,
                                               groups: seq<string>)
    ensures StructureProblems(catalog, points, offers, groups) == []
            <==> forall g :: g in groups ==> WellOffered(catalog, points, offers, g)
  {
    if |groups| > 0 {
      var n := |groups| - 1;
      NoStructureProblems(catalog, points, offers, groups[..n]);
      NoGroupProblems(catalog, points, offers, groups[n]);
      LastIn(groups);
    }
  }

  lemma NextEmpty(catalog: Catalog, offers: seq<Offer>, k: nat)
    requires k < |offers|
    ensures SomeEmpty(catalog, offers[..k + 1]) <==> SomeEmpty(catalog, offers[..k]) || IsEmptyOffer(catalog, offers[k])
    ensures IsEmptyOffer(catalog, offers[k]) ==> SomeEmpty(catalog, offers)
  {
    var more := offers[..k + 1];
    assert more[k] == offers[k];
    if i :| 0 <= i < k && IsEmptyOffer(catalog, offers[..k][i]) {
      assert IsEmptyOffer(catalog, more[i]);
    }
    if i :| 0 <= i < |more| && IsEmptyOffer(catalog, more[i]) {
      assert i < k ==> IsEmptyOffer(catalog, offers[..k][i]);
    }
  }

  lemma NoneMore<T>(s: seq<T>)
    ensures s + [] == s
  {
  }

  lemma LastIn<T>(s: seq<T>)
    requires |s| > 0
    ensures forall x :: x in s <==> x in s[..|s| - 1] || x == s[|s| - 1]
  {
    assert s == s[..|s| - 1] + [s[|s| - 1]];
  }

  lemma OfferProblemsGrow(catalog: Catalog, group: string, offers: seq<Offer>, k: nat, before: seq<Problem>)
    requires k < |offers|
    ensures before + OfferProblems(catalog, group, offers[..k + 1])
         == before + OfferProblems(catalog, group, offers[..k]) + OfferProblem(catalog, group, offers[k])
  {
    assert offers[..k + 1][..k] == offers[..k];
  }

  lemma StructureProblemsGrow(catalog: Catalog, points: seq<Point>, offers: seq<Offer>, groups: seq<string>, k: nat)
    requires k < |groups|
    ensures StructureProblems(catalog, points, offers, groups[..k + 1])
         == StructureProblems(catalog, points, offers, groups[..k])
            + GroupProblems(catalog, groups[k], Members(points, groups[k]), OffersOf(offers, groups[k]))
    ensures MembersOf(points, groups[..k + 1]) == MembersOf(points, groups[..k]) + Set(Members(points, groups[k]))
  {
    assert groups[..k + 1][..k] == groups[..k];
  }

  /** What placing offer `k` of a group needs. */
  lemma NextOffer(byId: map<string, Point>, group: string, members: seq<string>, lists: seq<seq<string>>, k: nat,
                  ids: set<string>)
    requires NoRepeats(members) && Set(members) !! ids
    requires forall p :: p in members ==> p in byId && byId[p].group == group
    requires multiset(Joined(lists)) == multiset(members) && k < |lists|
    ensures forall p :: p in lists[k] ==> p in byId && byId[p].group == group
    ensures NoRepeats(lists[k]) && Set(lists[k]) !! ids + Set(Joined(lists[..k]))
    ensures ids + Set(Joined(lists[..k])) + Set(lists[k]) == ids + Set(Joined(lists[..k + 1]))
  {
    SameMembersDoNotRepeat(Joined(lists), members);
    JoinedSplits(lists, k);
    forall p | p in lists[k] ensures p in members && p !in ids {
      assert p in Set(lists[k]) && p in Set(Joined(lists)) && p in Set(members);
    }
  }

  lemma NoOffers(lists: seq<seq<string>>, ids: set<string>)
    ensures ids + Set(Joined(lists[..0])) == ids
  {
    assert lists[..0] == [];
  }

  /** The stars of one group, when its offers place every member exactly once. */
  method PlaceGroup(catalog: Catalog, byId: map<string, Point>, group: string, members: seq<string>, offers: seq<Offer>,
                    before: Draft, ghost ids: set<string>) returns (draft: Option<Draft>)
    requires NoRepeats(members) && Set(members) !! ids
    requires forall p :: p in members ==> p in byId && byId[p].group == group
    requires Sound(catalog, byId, before, ids)
    ensures draft.Some? ==> Sound(catalog, byId, draft.value, ids + Set(members))
    ensures draft.None? <==> PlacesAll(members, offers) && SomeEmpty(catalog, offers)
    ensures draft.Some? ==> draft.value.problems == before.problems + GroupProblems(catalog, group, members, offers)
    ensures draft.Some? && PlacesAll(members, offers) ==>
              draft.value.stars == WithOffers(catalog, byId, group, offers, before.stars)
    ensures draft.Some? && !PlacesAll(members, offers) ==>
              draft.value.stars == before.stars && draft.value.pointStar == before.pointStar
  {
    if !PlacesAll(members, offers) {
      return Some(before.(problems := before.problems + [Misplaced(group)]));
    }
    ghost var lists := Placements(offers);
    draft := Some(before);
    NoOffers(lists, ids);
    NoneMore(before.problems);
    for k := 0 to |offers|
      invariant draft.Some?
      invariant !SomeEmpty(catalog, offers[..k])
      invariant draft.value.problems == before.problems + OfferProblems(catalog, group, offers[..k])
      invariant Sound(catalog, byId, draft.value, ids + Set(Joined(lists[..k])))
      invariant draft.value.stars == WithOffers(catalog, byId, group, offers[..k], before.stars)
    {
      MoreOffers(catalog, byId, group, offers, before.stars, k);
      NextOffer(byId, group, members, lists, k, ids);
      NextEmpty(catalog, offers, k);
      draft := PlaceStar(catalog, byId, group, offers[k], draft.value, ids + Set(Joined(lists[..k])));
      if draft.None? {
        return None;
      }
      OfferProblemsGrow(catalog, group, offers, k, before.problems);
    }
    assert lists[..|offers|] == lists && offers[..|offers|] == offers;
    SameMembersDoNotRepeat(Joined(lists), members);
  }

  /** The ids of the first groups. */
  function MembersOf(points: seq<Point>, groups: seq<string>): set<string> {
    if |groups| == 0 then {}
    else MembersOf(points, groups[..|groups| - 1]) + Set(Members(points, groups[|groups| - 1]))
  }

  lemma {:induction false} MembersOfAre(points: seq<Point>, groups: seq<string>, id: string)
    ensures id in MembersOf(points, groups)
            <==> exists k :: 0 <= k < |points| && points[k].id == id && points[k].group in groups
  {
    if |groups| > 0 {
      var n := |groups| - 1;
      MembersOfAre(points, groups[..n], id);
      MembersAre(points, groups[n], id);
      assert groups == groups[..n] + [groups[n]];
    }
  }

  /** The first pass: knowledge-point stars for every group, checked, or nothing when it raises. */
  method Structure(catalog: Catalog, points: seq<Point>, offers: seq<Offer>) returns (draft: Option<Draft>)
    requires DistinctIds(points)
    ensures draft.Some? ==> Sound(catalog, ById(points), draft.value, Set(Ids(points)))
    ensures draft.Some? ==> draft.value.problems == StructureProblems(catalog, points, offers, Groups(points))
    ensures draft.None? <==> SomeRaises(catalog, points, offers, Groups(points))
    ensures draft.Some? ==> draft.value.stars == FirstStars(catalog, points, offers)
  {
    var byId, groups := ById(points), Groups(points);
    GroupsDoNotRepeat(points);
    draft := Some(Draft(map[], map[], []));
    for k := 0 to |groups|
      invariant draft.Some? && Sound(catalog, byId, draft.value, MembersOf(points, groups[..k]))
      invariant draft.value.problems == StructureProblems(catalog, points, offers, groups[..k])
      invariant !SomeRaises(catalog, points, offers, groups[..k])
      invariant draft.value.stars == StarsOf(catalog, points, offers, groups[..k])
    {
      MoreGroups(catalog, points, offers, groups, k);
      var members := Members(points, groups[k]);
      NextGroup(points, groups, k);
      NextRaises(catalog, points, offers, groups, k);
      draft := PlaceGroup(catalog, byId, groups[k], members, OffersOf(offers, groups[k]), draft.value,
                          MembersOf(points, groups[..k]));
      if draft.None? {
        return None;
      }
      StructureProblemsGrow(catalog, points, offers, groups, k);
    }
    assert groups[..|groups|] == groups;
    AllGroups(points);
  }

  /** A group whose points are all placed, with an offer that holds none. */
  predicate Raises(catalog: Catalog, points: seq<Point>, offers: seq<Offer>, group: string) {
    PlacesAll(Members(points, group), OffersOf(offers, group)) && SomeEmpty(catalog, OffersOf(offers, group))
  }

  ghost predicate SomeRaises(catalog: Catalog, points: seq<Point>, offers: seq<Offer>, groups: seq<string>) {
    Hits(groups, g => Raises(catalog, points, offers, g))
  }

  ghost predicate Hits<T>(s: seq<T>, hit: T -> bool) {
    exists k :: 0 <= k < |s| && hit(s[k])
  }

  lemma NextHit<T>(s: seq<T>, hit: T -> bool, k: nat)
    requires k < |s|
    ensures Hits(s[..k + 1], hit) <==> Hits(s[..k], hit) || hit(s[k])
    ensures hit(s[k]) ==> Hits(s, hit)
  {
    var more := s[..k + 1];
    assert more[k] == s[k];
    if i :| 0 <= i < k && hit(s[..k][i]) {
      assert hit(more[i]);
    }
    if i :| 0 <= i < |more| && hit(more[i]) {
      assert i < k ==> hit(s[..k][i]);
    }
  }

  lemma NextRaises(catalog: Catalog, points: seq<Point>, offers: seq<Offer>, groups: seq<string>, k: nat)
    requires k < |groups|
    ensures SomeRaises(catalog, points, offers, groups[..k + 1])
            <==> SomeRaises(catalog, points, offers, groups[..k]) || Raises(catalog, points, offers, groups[k])
    ensures Raises(catalog, points, offers, groups[k]) ==> SomeRaises(catalog, points, offers, groups)
  {
    NextHit(groups, g => Raises(catalog, points, offers, g), k);
  }

  /** What structuring group `k` needs. */
  lemma NextGroup(points: seq<Point>, groups: seq<string>, k: nat)
    requires DistinctIds(points) && NoRepeats(groups) && k < |groups|
    ensures NoRepeats(Members(points, groups[k])) && Set(Members(points, groups[k])) !! MembersOf(points, groups[..k])
    ensures forall p :: p in Members(points, groups[k]) ==> p in ById(points) && ById(points)[p].group == groups[k]
  {
    MembersDoNotRepeat(points, groups[k]);
    GroupApart(points, groups, k);
    forall p | p in Members(points, groups[k]) ensures p in ById(points) && ById(points)[p].group == groups[k] {
      MembersAre(points, groups[k], p);
      var i :| 0 <= i < |points| && points[i].group == groups[k] && points[i].id == p;
      ByIdAt(points, i);
    }
  }

  lemma GroupApart(points: seq<Point>, groups: seq<string>, k: nat)
    requires DistinctIds(points) && NoRepeats(groups) && k < |groups|
    ensures Set(Members(points, groups[k])) !! MembersOf(points, groups[..k])
  {
    forall id | id in Members(points, groups[k]) ensures id !in MembersOf(points, groups[..k]) {
      MembersAre(points, groups[k], id);
      MembersOfAre(points, groups[..k], id);
      var i :| 0 <= i < |points| && points[i].group == groups[k] && points[i].id == id;
      forall j | 0 <= j < |points| && points[j].id == id ensures points[j].group !in groups[..k] {
        assert i == j;
      }
    }
  }

  lemma AllGroups(points: seq<Point>)
    ensures MembersOf(points, Groups(points)) == Set(Ids(points))
  {
    forall id ensures id in MembersOf(points, Groups(points)) <==> id in Set(Ids(points)) {
      MembersOfAre(points, Groups(points), id);
      if id in Set(Ids(points)) {
        var k :| 0 <= k < |points| && Ids(points)[k] == id;
        GroupsAre(points, points[k].group);
      } else {
        assert forall k :: 0 <= k < |points| ==> Ids(points)[k] == points[k].id;
      }
    }
  }

  // ── Question types ──────────────────────────────────────────────────────────

  predicate IsStray(byId: map<string, Point>, e: Exercise) {
    e.point !in byId
  }

  /** An exercise on a point that is not there. */
  ghost predicate SomeStray(byId: map<string, Point>, exercises: seq<Exercise>) {
    Hits(exercises, (e: Exercise) => IsStray(byId, e))
  }

  /** The type given to an exercise is one of its point's subject. */
  predicate IsTyped(catalog: Catalog, byId: map<string, Point>, types: map<string, string>, e: Exercise) {
    e.id in types && types[e.id] in catalog.types(PointAt(byId, e.point).subject)
  }

  function TypeProblems(catalog: Catalog, byId: map<string, Point>, types: map<string, string>,
                        exercises: seq<Exercise>)
    : seq<Problem> {
    if |exercises| == 0 then []
    else
      var n := |exercises| - 1;
      TypeProblems(catalog, byId, types, exercises[..n])
      + if IsTyped(catalog, byId, types, exercises[n]) then [] else [WrongType(exercises[n].id)]
  }

  lemma {:induction false} NoTypeProblems(catalog: Catalog, byId: map<string, Point>, types: map<string, string>,
                                          exercises: seq<Exercise>)
    ensures TypeProblems(catalog, byId, types, exercises) == []
            <==> forall e :: e in exercises ==> IsTyped(catalog, byId, types, e)
  {
    if |exercises| > 0 {
      NoTypeProblems(catalog, byId, types, exercises[..|exercises| - 1]);
      LastIn(exercises);
    }
  }

  /** Every exercise must have a question type of its point's subject. An exercise on a point that is
      not there raises. */
  method CheckTypes(catalog: Catalog, byId: map<string, Point>, types: map<string, string>, exercises: seq<Exercise>)
    returns (problems: Option<seq<Problem>>)
    ensures problems.None? <==> SomeStray(byId, exercises)
    ensures problems.Some? ==> problems.value == TypeProblems(catalog, byId, types, exercises)
  {
    var found: seq<Problem> := [];
    for k := 0 to |exercises|
      invariant found == TypeProblems(catalog, byId, types, exercises[..k])
      invariant !SomeStray(byId, exercises[..k])
    {
      var e := exercises[k];
      NextHit(exercises, (e: Exercise) => IsStray(byId, e), k);
      assert exercises[..k + 1][..k] == exercises[..k];
      if e.point !in byId {
        return None;
      }
      if e.id !in types || types[e.id] !in catalog.types(byId[e.point].subject) {
        found := found + [WrongType(e.id)];
      }
    }
    assert exercises[..|exercises|] == exercises;
    return Some(found);
  }
}
