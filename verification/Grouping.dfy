/** Filing items under keys in order of first appearance, as an insertion-ordered dictionary of lists. */
module Grouping {
  import opened Options
  import opened Lists
  import opened Counting

  datatype Group<T> = Group(key: string, items: seq<T>)

  /** The items that have a key. */
  function Keyed<T>(items: seq<T>, key: T -> Option<string>): seq<T> {
    if |items| == 0 then []
    else
      var n := |items| - 1;
      Keyed(items[..n], key) + if key(items[n]).Some? then [items[n]] else []
  }

  /** The items of one key. */
  function Under<T>(items: seq<T>, key: T -> Option<string>, k: string): seq<T> {
    if |items| == 0 then []
    else
      var n := |items| - 1;
      Under(items[..n], key, k) + if key(items[n]) == Some(k) then [items[n]] else []
  }

  lemma {:induction false} UnderCounts<T>(items: seq<T>, key: T -> Option<string>, k: string, x: T)
    ensures Count(Under(items, key, k), x) == if key(x) == Some(k) then Count(Keyed(items, key), x) else 0
  {
    if |items| > 0 {
      var n := |items| - 1;
      UnderCounts(items[..n], key, k, x);
      CountOneMore(Under(items[..n], key, k), key(items[n]) == Some(k), items[n], x);
      CountOneMore(Keyed(items[..n], key), key(items[n]).Some?, items[n], x);
    }
  }

  lemma {:induction false} KeyedAre<T>(items: seq<T>, key: T -> Option<string>, x: T)
    ensures x in Keyed(items, key) <==> x in items && key(x).Some?
  {
    if |items| > 0 {
      var n := |items| - 1;
      KeyedAre(items[..n], key, x);
      assert items == items[..n] + [items[n]];
    }
  }

  lemma UnderAre<T>(items: seq<T>, key: T -> Option<string>, k: string, x: T)
    ensures x in Under(items, key, k) <==> x in items && key(x) == Some(k)
  {
    UnderCounts(items, key, k, x);
    CountedIsIn(Under(items, key, k), x);
    CountedIsIn(Keyed(items, key), x);
    KeyedAre(items, key, x);
  }

  /** A key's items are picked in order. */
  lemma {:induction false} UnderPicks<T>(items: seq<T>, key: T -> Option<string>, k: string)
    ensures Picks(Under(items, key, k), items, x => key(x) == Some(k))
  {
    if |items| == 0 {
      PicksNone<T>(x => key(x) == Some(k));
    } else {
      UnderPicks(items[..|items| - 1], key, k);
      PicksOneMore(Under(items[..|items| - 1], key, k), items, x => key(x) == Some(k));
    }
  }

  /** Where a key's group is, or the number of groups. */
  function Place<T>(groups: seq<Group<T>>, k: string): (p: nat)
    ensures p <= |groups| && (p < |groups| ==> groups[p].key == k)
    ensures forall i :: 0 <= i < p ==> groups[i].key != k
  {
    if |groups| == 0 || groups[0].key == k then 0 else Place(groups[1..], k) + 1
  }

  /** An item put into its key's group, or into a new one after the others. */
  function Added<T>(groups: seq<Group<T>>, k: string, x: T): seq<Group<T>> {
    var p := Place(groups, k);
    if p < |groups| then groups[p := Group(k, groups[p].items + [x])] else groups + [Group(k, [x])]
  }

  ghost predicate DistinctKeys<T>(groups: seq<Group<T>>) {
    forall i, j :: 0 <= i < j < |groups| ==> groups[i].key != groups[j].key
  }

  ghost predicate HasKey<T>(groups: seq<Group<T>>, k: string) {
    exists p :: 0 <= p < |groups| && groups[p].key == k
  }

  ghost predicate HoldsItsOwn<T>(items: seq<T>, key: T -> Option<string>, group: Group<T>) {
    |group.items| > 0 && group.items == Under(items, key, group.key)
  }

  /** Item `i` is the first of its key. */
  ghost predicate FirstOf<T>(items: seq<T>, key: T -> Option<string>, k: string, i: int) {
    0 <= i < |items| && key(items[i]) == Some(k) && forall j :: 0 <= j < i ==> key(items[j]) != Some(k)
  }

  ghost predicate InOrderOfUse<T>(items: seq<T>, key: T -> Option<string>, groups: seq<Group<T>>) {
    forall p, q, i, j ::
      0 <= p < q < |groups| && FirstOf(items, key, groups[p].key, i) && FirstOf(items, key, groups[q].key, j) ==>
        i < j
  }

  lemma FirstOfMore<T>(items: seq<T>, key: T -> Option<string>, x: T, k: string, i: int)
    requires FirstOf(items + [x], key, k, i)
    ensures i < |items| ==> FirstOf(items, key, k, i)
    ensures i == |items| ==> forall y :: y in items ==> key(y) != Some(k)
  {
    assert forall j :: 0 <= j < |items| ==> (items + [x])[j] == items[j];
  }

  /** Every key in one group, every group all the items of its key, in the order the keys are first used. */
  ghost predicate Grouped<T(!new)>(items: seq<T>, key: T -> Option<string>, groups: seq<Group<T>>) {
    && DistinctKeys(groups) && InOrderOfUse(items, key, groups)
    && (forall p :: 0 <= p < |groups| ==> HoldsItsOwn(items, key, groups[p]))
    && (forall x :: x in items && key(x).Some? ==> HasKey(groups, key(x).value))
  }

  lemma NoItemsYet<T(!new)>(items: seq<T>, key: T -> Option<string>, groups: seq<Group<T>>, k: string)
    requires Grouped(items, key, groups) && Place(groups, k) == |groups|
    ensures Under(items, key, k) == []
  {
    forall x | x in items ensures key(x) != Some(k) {
      if key(x).Some? {
        assert HasKey(groups, key(x).value);
      }
    }
    if Under(items, key, k) != [] {
      UnderAre(items, key, k, Under(items, key, k)[0]);
    }
  }

  /** A group after one more item: its own when the item is of its key. */
  lemma StillItsOwn<T>(items: seq<T>, key: T -> Option<string>, group: Group<T>, x: T)
    requires HoldsItsOwn(items, key, group)
    ensures HoldsItsOwn(items + [x], key, if key(x) == Some(group.key) then group.(items := group.items + [x])
                        else group)
  {
    assert (items + [x])[..|items|] == items;
  }

  lemma NewItsOwn<T>(items: seq<T>, key: T -> Option<string>, k: string, x: T)
    requires Under(items, key, k) == [] && key(x) == Some(k)
    ensures HoldsItsOwn(items + [x], key, Group(k, [x]))
  {
    assert (items + [x])[..|items|] == items;
  }

  lemma AddedHasKeys<T>(groups: seq<Group<T>>, k: string, x: T)
    ensures HasKey(Added(groups, k, x), k)
    ensures forall l :: HasKey(groups, l) ==> HasKey(Added(groups, k, x), l)
    ensures DistinctKeys(groups) ==> DistinctKeys(Added(groups, k, x))
  {
    var p, added := Place(groups, k), Added(groups, k, x);
    assert added[p].key == k;
    forall l | HasKey(groups, l) ensures HasKey(added, l) {
      var q :| 0 <= q < |groups| && groups[q].key == l;
      assert added[q].key == l;
    }
  }

  /** Filing one more item keeps the groups in order. */
  lemma OneMoreGrouped<T(!new)>(items: seq<T>, key: T -> Option<string>, groups: seq<Group<T>>, x: T)
    requires Grouped(items, key, groups) && key(x).Some?
    ensures Grouped(items + [x], key, Added(groups, key(x).value, x))
  {
    var k := key(x).value;
    var p, added := Place(groups, k), Added(groups, k, x);
    AddedHasKeys(groups, k, x);
    forall q | 0 <= q < |added| ensures HoldsItsOwn(items + [x], key, added[q]) {
      if q < |groups| {
        StillItsOwn(items, key, groups[q], x);
        assert groups[q].key == k ==> q == p;
      } else {
        NoItemsYet(items, key, groups, k);
        NewItsOwn(items, key, k, x);
      }
    }
    AddedInOrder(items, key, groups, x);
  }

  /** A group of an item list has a first item. */
  lemma UsedBefore<T>(items: seq<T>, key: T -> Option<string>, group: Group<T>)
    requires HoldsItsOwn(items, key, group)
    ensures exists y :: y in items && key(y) == Some(group.key)
  {
    UnderAre(items, key, group.key, group.items[0]);
  }

  lemma AddedInOrder<T(!new)>(items: seq<T>, key: T -> Option<string>, groups: seq<Group<T>>, x: T)
    requires Grouped(items, key, groups) && key(x).Some?
    ensures InOrderOfUse(items + [x], key, Added(groups, key(x).value, x))
  {
    var k := key(x).value;
    var added := Added(groups, k, x);
    forall p, q, i, j | 0 <= p < q < |added| && FirstOf(items + [x], key, added[p].key, i)
                        && FirstOf(items + [x], key, added[q].key, j)
      ensures i < j
    {
      assert added[p].key == groups[p].key;
      UsedBefore(items, key, groups[p]);
      FirstOfMore(items, key, x, added[p].key, i);
      FirstOfMore(items, key, x, added[q].key, j);
      if q < |groups| {
        assert added[q].key == groups[q].key;
        UsedBefore(items, key, groups[q]);
      } else {
        NoItemsYet(items, key, groups, k);
        NotUsedYet(items, key, k, j);
      }
    }
  }

  lemma NotUsedYet<T>(items: seq<T>, key: T -> Option<string>, k: string, j: int)
    requires Under(items, key, k) == []
    ensures !FirstOf(items, key, k, j)
  {
    if FirstOf(items, key, k, j) {
      UnderAre(items, key, k, items[j]);
    }
  }

  lemma OneMoreUnkeyed<T(!new)>(items: seq<T>, key: T -> Option<string>, groups: seq<Group<T>>, x: T)
    requires Grouped(items, key, groups) && key(x).None?
    ensures Grouped(items + [x], key, groups)
  {
    var more := items + [x];
    assert more[..|items|] == items;
    forall q | 0 <= q < |groups| ensures HoldsItsOwn(more, key, groups[q]) {
      assert HoldsItsOwn(items, key, groups[q]);
    }
    forall p, q, i, j | 0 <= p < q < |groups| && FirstOf(more, key, groups[p].key, i)
                        && FirstOf(more, key, groups[q].key, j)
      ensures i < j
    {
      UsedBefore(items, key, groups[p]);
      UsedBefore(items, key, groups[q]);
      FirstOfMore(items, key, x, groups[p].key, i);
      FirstOfMore(items, key, x, groups[q].key, j);
    }
  }

  // ── Nothing is lost ─────────────────────────────────────────────────────────

  function AllItems<T>(groups: seq<Group<T>>): seq<T> {
    if |groups| == 0 then [] else AllItems(groups[..|groups| - 1]) + groups[|groups| - 1].items
  }

  lemma {:induction false} GroupsCount<T(!new)>(items: seq<T>, key: T -> Option<string>, groups: seq<Group<T>>, x: T)
    requires DistinctKeys(groups) && forall p :: 0 <= p < |groups| ==> HoldsItsOwn(items, key, groups[p])
    ensures Count(AllItems(groups), x)
         == if key(x).Some? && HasKey(groups, key(x).value) then Count(Keyed(items, key), x) else 0
  {
    if |groups| > 0 {
      var n := |groups| - 1;
      GroupsCount(items, key, groups[..n], x);
      CountAppends(AllItems(groups[..n]), groups[n].items, x);
      UnderCounts(items, key, groups[n].key, x);
      assert HoldsItsOwn(items, key, groups[n]);
      if key(x).Some? {
        LastKey(groups, key(x).value);
      }
    }
  }

  lemma LastKey<T>(groups: seq<Group<T>>, k: string)
    requires |groups| > 0 && DistinctKeys(groups)
    ensures HasKey(groups, k) <==> HasKey(groups[..|groups| - 1], k) || groups[|groups| - 1].key == k
    ensures !(HasKey(groups[..|groups| - 1], k) && groups[|groups| - 1].key == k)
  {
    var n := |groups| - 1;
    if p :| 0 <= p < |groups| && groups[p].key == k {
      if p < n {
        assert groups[..n][p].key == k;
      }
    }
  }

  /** The groups hold exactly the items that have a key, each as often as it was given. */
  lemma GroupsKeepAll<T(!new)>(items: seq<T>, key: T -> Option<string>, groups: seq<Group<T>>)
    requires Grouped(items, key, groups)
    ensures multiset(AllItems(groups)) == multiset(Keyed(items, key))
  {
    forall x ensures Count(AllItems(groups), x) == Count(Keyed(items, key), x) {
      GroupsCount(items, key, groups, x);
      CountedIsIn(Keyed(items, key), x);
      KeyedAre(items, key, x);
    }
    EqualCounts(AllItems(groups), Keyed(items, key));
  }
}
