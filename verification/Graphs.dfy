/** Directed graphs as dictionaries of successor sets: paths, reachability and cycles. */
module Graphs {

  type Graph = map<string, set<string>>

  function Succ(g: Graph, n: string): set<string> {
    if n in g then g[n] else {}
  }

  function WithEdge(g: Graph, from: string, to: string): Graph {
    g[from := Succ(g, from) + {to}]
  }

  /** A non-empty walk along the edges. */
  ghost predicate Chain(g: Graph, p: seq<string>) {
    |p| > 0 && forall k :: 0 <= k < |p| - 1 ==> p[k + 1] in Succ(g, p[k])
  }

  ghost predicate IsPath(g: Graph, p: seq<string>, a: string, b: string) {
    Chain(g, p) && p[0] == a && p[|p| - 1] == b
  }

  ghost predicate Reaches(g: Graph, a: string, b: string) {
    exists p :: IsPath(g, p, a, b)
  }

  ghost predicate Acyclic(g: Graph) {
    forall a, b :: b in Succ(g, a) ==> !Reaches(g, b, a)
  }

  ghost predicate SubGraph(g: Graph, h: Graph) {
    forall n :: Succ(g, n) <= Succ(h, n)
  }

  function Nodes(g: Graph): set<string> {
    g.Keys + set k, n | k in g && n in g[k] :: n
  }

  lemma ReachesItself(g: Graph, a: string)
    ensures Reaches(g, a, a)
  {
    assert IsPath(g, [a], a, a);
  }

  lemma StepThenReach(g: Graph, a: string, b: string, c: string)
    requires b in Succ(g, a) && Reaches(g, b, c)
    ensures Reaches(g, a, c)
  {
    var p :| IsPath(g, p, b, c);
    assert IsPath(g, [a] + p, a, c);
  }

  lemma ReachTransitive(g: Graph, a: string, b: string, c: string)
    requires Reaches(g, a, b) && Reaches(g, b, c)
    ensures Reaches(g, a, c)
  {
    var p :| IsPath(g, p, a, b);
    var q :| IsPath(g, q, b, c);
    assert IsPath(g, p + q[1..], a, c);
  }

  lemma ReachThenStep(g: Graph, a: string, b: string, c: string)
    requires Reaches(g, a, b) && c in Succ(g, b)
    ensures Reaches(g, a, c)
  {
    ReachesItself(g, c);
    StepThenReach(g, b, c, c);
    ReachTransitive(g, a, b, c);
  }

  /** A set closed under the edges holds everything its members reach. */
  lemma {:induction false} ClosedUnderPaths(g: Graph, closed: set<string>, p: seq<string>)
    requires Chain(g, p) && p[0] in closed && forall n :: n in closed ==> Succ(g, n) <= closed
    ensures p[|p| - 1] in closed
  {
    if |p| > 1 {
      ClosedUnderPaths(g, closed, p[1..]);
    }
  }

  /** A path with one more edge available either does not use it, or leads up to it and on
      from it in the old graph. */
  lemma {:induction false} PathAroundEdge(g: Graph, from: string, to: string, p: seq<string>)
    requires Chain(WithEdge(g, from, to), p)
    ensures Reaches(g, p[0], p[|p| - 1]) || (Reaches(g, p[0], from) && Reaches(g, to, p[|p| - 1]))
  {
    if |p| == 1 {
      ReachesItself(g, p[0]);
    } else {
      var q := p[1..];
      PathAroundEdge(g, from, to, q);
      if p[1] in Succ(g, p[0]) {
        if Reaches(g, q[0], q[|q| - 1]) {
          StepThenReach(g, p[0], q[0], q[|q| - 1]);
        } else {
          StepThenReach(g, p[0], q[0], from);
        }
      } else {
        ReachesItself(g, from);
      }
    }
  }

  /** An edge that closes no cycle keeps the graph acyclic. */
  lemma AddingKeepsAcyclic(g: Graph, from: string, to: string)
    requires Acyclic(g) && !Reaches(g, to, from)
    ensures Acyclic(WithEdge(g, from, to))
  {
    var h := WithEdge(g, from, to);
    forall a, b | b in Succ(h, a) ensures !Reaches(h, b, a) {
      if Reaches(h, b, a) {
        var p :| IsPath(h, p, b, a);
        PathAroundEdge(g, from, to, p);
        if b in Succ(g, a) && Reaches(g, b, from) && Reaches(g, to, a) {
          ReachThenStep(g, to, a, b);
          ReachTransitive(g, to, b, from);
        }
      }
    }
  }

  // ── Searching ───────────────────────────────────────────────────────────────

  /** The members of a set in some order. */
  method Listed(s: set<string>) returns (list: seq<string>)
    ensures forall x :: x in list <==> x in s
    ensures |list| == |s| && forall i, j :: 0 <= i < j < |list| ==> list[i] != list[j]
  {
    list := [];
    var left := s;
    while left != {}
      invariant left <= s && forall x :: x in list <==> x in s - left
      invariant |list| + |left| == |s| && forall i, j :: 0 <= i < j < |list| ==> list[i] != list[j]
      decreases left
    {
      var x :| x in left;
      list, left := list + [x], left - {x};
    }
  }

  /** Whether `target` already leads back to `start`. */
  method ClosesCycle(graph: Graph, start: string, target: string) returns (closes: bool)
    ensures closes <==> Reaches(graph, target, start)
  {
    ghost var universe := Nodes(graph) + {target};
    var seen: set<string>, pending := {}, [target];
    ReachesItself(graph, target);
    while |pending| > 0
      invariant seen <= universe && start !in seen
      invariant forall n :: n in pending ==> n in universe && Reaches(graph, target, n)
      invariant forall n :: n in seen ==> forall m :: m in Succ(graph, n) ==> m in seen || m in pending
      invariant target in seen || target in pending
      decreases universe - seen, |pending|
    {
      var node := pending[|pending| - 1];
      ghost var before := pending;
      pending := pending[..|pending| - 1];
      assert forall n :: n in before ==> n in pending || n == node;
      if node == start {
        return true;
      }
      if node !in seen {
        seen := seen + {node};
        var next := Listed(Succ(graph, node));
        forall n | n in next ensures n in universe && Reaches(graph, target, n) {
          ReachThenStep(graph, target, node, n);
        }
        pending := pending + next;
      }
    }
    if Reaches(graph, target, start) {
      var p :| IsPath(graph, p, target, start);
      ClosedUnderPaths(graph, seen, p);
    }
    return false;
  }
}
