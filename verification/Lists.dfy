/** Lists joined one after the other. */
module Lists {

  function Joined<T>(lists: seq<seq<T>>): seq<T> {
    if |lists| == 0 then [] else Joined(lists[..|lists| - 1]) + lists[|lists| - 1]
  }

  lemma JoinedAppends<T>(lists: seq<seq<T>>, more: seq<T>)
    ensures Joined(lists + [more]) == Joined(lists) + more
  {
    assert (lists + [more])[..|lists|] == lists;
  }

  /** An appended list without its last element. */
  lemma ShorterByOne<T>(a: seq<T>, b: seq<T>)
    requires |b| > 0
    ensures (a + b)[..|a + b| - 1] == a + b[..|b| - 1] && (a + b)[|a + b| - 1] == b[|b| - 1]
  {
  }

  lemma {:induction false} JoinedFromFirst<T>(lists: seq<seq<T>>)
    requires |lists| > 0
    ensures Joined(lists) == lists[0] + Joined(lists[1..])
  {
    var n := |lists| - 1;
    if n == 0 {
      assert lists[..0] == [] && lists[1..] == [];
    } else {
      JoinedFromFirst(lists[..n]);
      assert lists[..n][1..] == lists[1..][..n - 1];
    }
  }

  // ── Filters ─────────────────────────────────────────────────────────────────

  /** The elements of a list that are kept, all of them and in its order. */
  ghost predicate Picks<T>(picked: seq<T>, s: seq<T>, keep: T -> bool) {
    exists at :: PicksAt(picked, s, keep, at)
  }

  ghost predicate PicksAt<T>(picked: seq<T>, s: seq<T>, keep: T -> bool, at: seq<int>) {
    && |at| == |picked|
    && (forall i :: 0 <= i < |at| ==> 0 <= at[i] < |s| && picked[i] == s[at[i]])
    && (forall i, j :: 0 <= i < j < |at| ==> at[i] < at[j])
    && (forall k :: 0 <= k < |s| ==> (keep(s[k]) <==> k in at))
  }

  lemma PicksNone<T>(keep: T -> bool)
    ensures Picks([], [], keep)
  {
    assert PicksAt([], [], keep, []);
  }

  lemma PicksOneMore<T>(picked: seq<T>, s: seq<T>, keep: T -> bool)
    requires |s| > 0 && Picks(picked, s[..|s| - 1], keep)
    ensures Picks(picked + if keep(s[|s| - 1]) then [s[|s| - 1]] else [], s, keep)
  {
    var at :| PicksAt(picked, s[..|s| - 1], keep, at);
    if keep(s[|s| - 1]) {
      PicksLast(picked, s, keep, at);
      assert PicksAt(picked + [s[|s| - 1]], s, keep, at + [|s| - 1]);
    } else {
      PassesLast(picked, s, keep, at);
      assert picked + [] == picked;
    }
  }

  lemma PicksLast<T>(picked: seq<T>, s: seq<T>, keep: T -> bool, at: seq<int>)
    requires |s| > 0 && PicksAt(picked, s[..|s| - 1], keep, at) && keep(s[|s| - 1])
    ensures PicksAt(picked + [s[|s| - 1]], s, keep, at + [|s| - 1])
  {
    var n := |s| - 1;
    var more := at + [n];
    forall i | 0 <= i < |more| ensures 0 <= more[i] < |s| && (picked + [s[n]])[i] == s[more[i]] {
      if i < |at| {
        assert s[..n][at[i]] == s[at[i]];
      }
    }
    forall k | 0 <= k < |s| ensures keep(s[k]) <==> k in more {
      assert more[|at|] == n;
      if k < n {
        assert keep(s[..n][k]) <==> k in at;
      }
    }
  }

  lemma PassesLast<T>(picked: seq<T>, s: seq<T>, keep: T -> bool, at: seq<int>)
    requires |s| > 0 && PicksAt(picked, s[..|s| - 1], keep, at) && !keep(s[|s| - 1])
    ensures PicksAt(picked, s, keep, at)
  {
    var n := |s| - 1;
    forall i | 0 <= i < |at| ensures 0 <= at[i] < |s| && picked[i] == s[at[i]] {
      assert s[..n][at[i]] == s[at[i]];
    }
    forall k | 0 <= k < |s| ensures keep(s[k]) <==> k in at {
      if k < n {
        assert keep(s[..n][k]) <==> k in at;
      }
    }
  }
}
