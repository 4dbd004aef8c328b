/** The stable sort every script relies on, and the order of strings it is used with. */
module Sorting {

  ghost predicate TotalPreorder<T(!new)>(le: (T, T) -> bool) {
    && (forall a, b :: le(a, b) || le(b, a))
    && (forall a, b, c :: le(a, b) && le(b, c) ==> le(a, c))
  }

  ghost predicate SortedBy<T>(s: seq<T>, le: (T, T) -> bool) {
    forall i, j :: 0 <= i < j < |s| ==> le(s[i], s[j])
  }

  /** `x` goes before the first element it may precede, so equal elements keep their order. */
  function Insert<T>(x: T, s: seq<T>, le: (T, T) -> bool): seq<T> {
    if |s| == 0 || le(x, s[0]) then [x] + s else [s[0]] + Insert(x, s[1..], le)
  }

  function Sorted<T>(s: seq<T>, le: (T, T) -> bool): seq<T> {
    if |s| == 0 then [] else Insert(s[0], Sorted(s[1..], le), le)
  }

  lemma {:induction false} InsertPermutes<T>(x: T, s: seq<T>, le: (T, T) -> bool)
    ensures multiset(Insert(x, s, le)) == multiset{x} + multiset(s)
  {
    if |s| > 0 && !le(x, s[0]) {
      InsertPermutes(x, s[1..], le);
      assert s == [s[0]] + s[1..];
    }
  }

  /** Sorting only reorders. */
  lemma {:induction false} SortPermutes<T>(s: seq<T>, le: (T, T) -> bool)
    ensures multiset(Sorted(s, le)) == multiset(s)
    ensures |Sorted(s, le)| == |s|
  {
    if |s| > 0 {
      SortPermutes(s[1..], le);
      InsertPermutes(s[0], Sorted(s[1..], le), le);
      assert s == [s[0]] + s[1..];
    }
    assert |multiset(Sorted(s, le))| == |Sorted(s, le)|;
  }

  lemma SortMembers<T>(s: seq<T>, le: (T, T) -> bool)
    ensures forall x :: x in Sorted(s, le) <==> x in s
  {
    SortPermutes(s, le);
    forall x ensures x in Sorted(s, le) <==> x in s {
      assert x in multiset(Sorted(s, le)) <==> x in Sorted(s, le);
      assert x in multiset(s) <==> x in s;
    }
  }

  lemma {:induction false} InsertOrders<T(!new)>(x: T, s: seq<T>, le: (T, T) -> bool)
    requires TotalPreorder(le) && SortedBy(s, le)
    ensures SortedBy(Insert(x, s, le), le)
  {
    if |s| > 0 {
      if le(x, s[0]) {
        forall i | 0 <= i < |s| ensures le(x, s[i]) {
        }
      } else {
        InsertOrders(x, s[1..], le);
        var rest := Insert(x, s[1..], le);
        InsertPermutes(x, s[1..], le);
        forall i | 0 <= i < |rest| ensures le(s[0], rest[i]) {
          assert rest[i] in multiset(rest);
          assert rest[i] == x || rest[i] in s[1..];
        }
      }
    }
  }

  /** Sorting orders, by any total preorder. */
  lemma {:induction false} SortOrders<T(!new)>(s: seq<T>, le: (T, T) -> bool)
    requires TotalPreorder(le)
    ensures SortedBy(Sorted(s, le), le)
  {
    if |s| > 0 {
      SortOrders(s[1..], le);
      InsertOrders(s[0], Sorted(s[1..], le), le);
    }
  }

  /** The elements that neither precede nor follow another, in order. */
  function Alike<T>(s: seq<T>, le: (T, T) -> bool, x: T): seq<T> {
    if |s| == 0 then [] else (if le(s[0], x) && le(x, s[0]) then [s[0]] else []) + Alike(s[1..], le, x)
  }

  /** Sorting leaves elements that are alike in the order they came in. */
  lemma {:induction false} SortIsStable<T(!new)>(s: seq<T>, le: (T, T) -> bool, x: T)
    requires TotalPreorder(le)
    ensures Alike(Sorted(s, le), le, x) == Alike(s, le, x)
  {
    if |s| > 0 {
      SortIsStable(s[1..], le, x);
      InsertIsStable(s[0], Sorted(s[1..], le), le, x);
    }
  }

  lemma {:induction false} InsertIsStable<T(!new)>(y: T, s: seq<T>, le: (T, T) -> bool, x: T)
    requires TotalPreorder(le)
    ensures Alike(Insert(y, s, le), le, x) == Alike([y] + s, le, x)
  {
    if |s| > 0 && !le(y, s[0]) {
      InsertIsStable(y, s[1..], le, x);
      assert ([s[0]] + Insert(y, s[1..], le))[1..] == Insert(y, s[1..], le);
      assert ([y] + s[1..])[1..] == s[1..] && ([y] + s)[1..] == s;
      assert !(le(s[0], x) && le(x, s[0]) && le(y, x) && le(x, y));
    }
  }

  // ── Strings ─────────────────────────────────────────────────────────────────

  /** Lexicographic order, a prefix first. */
  predicate AtOrBefore(a: string, b: string) {
    |a| == 0 || (|b| > 0 && (a[0] < b[0] || (a[0] == b[0] && AtOrBefore(a[1..], b[1..]))))
  }

  lemma {:induction false} StringsTotal(a: string, b: string)
    ensures AtOrBefore(a, b) || AtOrBefore(b, a)
    ensures AtOrBefore(a, b) && AtOrBefore(b, a) ==> a == b
  {
    if |a| > 0 && |b| > 0 && a[0] == b[0] {
      StringsTotal(a[1..], b[1..]);
      assert a == [a[0]] + a[1..] && b == [b[0]] + b[1..];
    }
  }

  lemma {:induction false} StringsTransitive(a: string, b: string, c: string)
    requires AtOrBefore(a, b) && AtOrBefore(b, c)
    ensures AtOrBefore(a, c)
  {
    if |a| > 0 && a[0] == b[0] == c[0] {
      StringsTransitive(a[1..], b[1..], c[1..]);
    }
  }

  lemma StringsOrdered()
    ensures TotalPreorder(AtOrBefore)
  {
    forall a: string, b: string ensures AtOrBefore(a, b) || AtOrBefore(b, a) {
      StringsTotal(a, b);
    }
    forall a: string, b: string, c: string | AtOrBefore(a, b) && AtOrBefore(b, c) ensures AtOrBefore(a, c) {
      StringsTransitive(a, b, c);
    }
  }

  /** `a` comes before `b`: by the first character that differs, or because it ends where `b` goes on. */
  ghost predicate Precedes(a: string, b: string) {
    exists k :: DiffersAt(a, b, k)
  }

  predicate DiffersAt(a: string, b: string, k: int) {
    0 <= k <= |a| && k < |b| && a[..k] == b[..k] && (k == |a| || a[k] < b[k])
  }

  /** What the order of strings is. */
  lemma {:induction false} AtOrBeforeIff(a: string, b: string)
    ensures AtOrBefore(a, b) <==> a == b || Precedes(a, b)
  {
    if |a| == 0 {
      assert |b| > 0 ==> DiffersAt(a, b, 0);
    } else if |b| > 0 && a[0] == b[0] {
      AtOrBeforeIff(a[1..], b[1..]);
      assert a == [a[0]] + a[1..] && b == [b[0]] + b[1..];
      if k :| DiffersAt(a[1..], b[1..], k) {
        assert a[..k + 1] == [a[0]] + a[1..][..k] && b[..k + 1] == [b[0]] + b[1..][..k];
        assert DiffersAt(a, b, k + 1);
      }
      if k :| DiffersAt(a, b, k) {
        assert k > 0 && a[..k][1..] == a[1..][..k - 1] && b[..k][1..] == b[1..][..k - 1];
        assert DiffersAt(a[1..], b[1..], k - 1);
      }
    } else if |b| > 0 {
      assert a[0] < b[0] ==> DiffersAt(a, b, 0);
      if k :| DiffersAt(a, b, k) {
        FirstCharacters(a, b, k);
      }
    }
  }

  lemma FirstCharacters(a: string, b: string, k: int)
    requires |a| > 0 && |b| > 0 && DiffersAt(a, b, k)
    ensures a[0] <= b[0]
  {
    if k > 0 {
      assert a[..k][0] == b[..k][0];
    }
  }

  ghost predicate Distinct<T>(s: seq<T>) {
    forall i, j :: 0 <= i < j < |s| ==> s[i] != s[j]
  }

  lemma {:induction false} SortKeepsDistinct<T>(s: seq<T>, le: (T, T) -> bool)
    requires Distinct(s)
    ensures Distinct(Sorted(s, le))
  {
    if |s| > 0 {
      SortKeepsDistinct(s[1..], le);
      SortMembers(s[1..], le);
      InsertKeepsDistinct(s[0], Sorted(s[1..], le), le);
    }
  }

  lemma {:induction false} InsertKeepsDistinct<T>(x: T, s: seq<T>, le: (T, T) -> bool)
    requires Distinct(s) && x !in s
    ensures Distinct(Insert(x, s, le))
    ensures forall y :: y in Insert(x, s, le) <==> y == x || y in s
  {
    if |s| > 0 && !le(x, s[0]) {
      InsertKeepsDistinct(x, s[1..], le);
      assert s == [s[0]] + s[1..];
      PrependKeepsDistinct(s[0], Insert(x, s[1..], le));
    } else {
      PrependKeepsDistinct(x, s);
    }
  }

  lemma PrependKeepsDistinct<T>(x: T, s: seq<T>)
    requires Distinct(s) && x !in s
    ensures Distinct([x] + s)
  {
  }

  /** Strictly ascending strings: in order, each once. */
  ghost predicate Ascending(s: seq<string>) {
    forall i, j :: 0 <= i < j < |s| ==> Precedes(s[i], s[j])
  }

  lemma SortAscends(s: seq<string>)
    requires Distinct(s)
    ensures Ascending(Sorted(s, AtOrBefore)) && forall x :: x in Sorted(s, AtOrBefore) <==> x in s
  {
    var sorted := Sorted(s, AtOrBefore);
    StringsOrdered();
    SortOrders(s, AtOrBefore);
    SortKeepsDistinct(s, AtOrBefore);
    SortMembers(s, AtOrBefore);
    forall i, j | 0 <= i < j < |sorted| ensures Precedes(sorted[i], sorted[j]) {
      AtOrBeforeIff(sorted[i], sorted[j]);
    }
  }
}
