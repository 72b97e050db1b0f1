/** Finite dependency graphs: walks, cycles, and the pigeonhole argument every
    standstill explanation rests on. */
module Graphs {
  import opened Jobs

  /** `g[u]` is the set of declared dependencies of `u`; a dependency that is not itself a
      key is outside the graph. */
  type Graph = map<Uid, set<Uid>>

  ghost predicate Walk(g: Graph, w: seq<Uid>) {
    && |w| > 0
    && (forall i :: 0 <= i < |w| ==> w[i] in g)
    && (forall i :: 0 <= i < |w| - 1 ==> w[i + 1] in g[w[i]])
  }

  ghost predicate ClosedWalk(g: Graph, w: seq<Uid>) {
    Walk(g, w) && |w| >= 2 && w[0] == w[|w| - 1]
  }

  ghost predicate OnCycle(g: Graph, u: Uid) {
    exists w :: ClosedWalk(g, w) && w[0] == u
  }

  ghost predicate HasCycle(g: Graph) {
    exists w :: ClosedWalk(g, w)
  }

  /** `v` can be reached from `u` by following dependencies (in zero or more steps). */
  ghost predicate Reaches(g: Graph, u: Uid, v: Uid) {
    exists w :: Walk(g, w) && w[0] == u && w[|w| - 1] == v
  }

  lemma WalkJoin(g: Graph, a: seq<Uid>, b: seq<Uid>)
    requires Walk(g, a) && Walk(g, b) && a[|a| - 1] == b[0]
    ensures Walk(g, a + b[1..]) && (a + b[1..])[0] == a[0]
    ensures (a + b[1..])[|a + b[1..]| - 1] == b[|b| - 1]
  {
    var w := a + b[1..];
    forall i | 0 <= i < |w| - 1 ensures w[i + 1] in g[w[i]] {
      if i >= |a| - 1 {
        assert w[i] == b[i - (|a| - 1)];
        assert w[i + 1] == b[i + 1 - (|a| - 1)];
      }
    }
  }

  lemma WalkSlice(g: Graph, w: seq<Uid>, i: nat, j: nat)
    requires Walk(g, w) && i <= j < |w|
    ensures Walk(g, w[i..j + 1]) && w[i..j + 1][0] == w[i] && w[i..j + 1][j - i] == w[j]
  {
    var v := w[i..j + 1];
    forall k | 0 <= k < |v| - 1 ensures v[k + 1] in g[v[k]] {
      assert v[k] == w[i + k] && v[k + 1] == w[i + k + 1];
    }
  }

  lemma ReachesTransitive(g: Graph, a: Uid, b: Uid, c: Uid)
    requires Reaches(g, a, b) && Reaches(g, b, c)
    ensures Reaches(g, a, c)
  {
    var v :| Walk(g, v) && v[0] == a && v[|v| - 1] == b;
    var w :| Walk(g, w) && w[0] == b && w[|w| - 1] == c;
    WalkJoin(g, v, w);
  }

  lemma ReachesStep(g: Graph, u: Uid, v: Uid)
    requires u in g && v in g && v in g[u]
    ensures Reaches(g, u, v)
  {
    assert Walk(g, [u, v]);
  }

  lemma ReachesSelf(g: Graph, u: Uid)
    requires u in g
    ensures Reaches(g, u, u)
  {
    assert Walk(g, [u]);
  }

  /** Every node of a closed walk lies on a cycle: rotate the walk to start there. */
  lemma ClosedWalkMembersOnCycle(g: Graph, w: seq<Uid>, i: nat)
    requires ClosedWalk(g, w) && i < |w|
    ensures OnCycle(g, w[i])
  {
    if i == |w| - 1 {
      assert w[i] == w[0];
    } else {
      var r := w[i..] + w[1..i + 1];
      assert Walk(g, r) by {
        forall k | 0 <= k < |r| - 1 ensures r[k + 1] in g[r[k]] {
          if k < |w| - i - 1 {
            assert r[k] == w[i + k] && r[k + 1] == w[i + k + 1];
          } else if k == |w| - i - 1 {
            assert r[k] == w[|w| - 1] == w[0] && r[k + 1] == w[1];
          } else {
            var m := k - (|w| - i) + 1;
            assert r[k] == w[m] && r[k + 1] == w[m + 1];
          }
        }
      }
      assert r[0] == w[i] && r[|r| - 1] == w[i];
    }
  }

  /** Pigeonhole: more positions than values means two positions agree. */
  lemma Pigeonhole(w: seq<Uid>, s: set<Uid>) returns (i: nat, j: nat)
    requires forall k :: 0 <= k < |w| ==> w[k] in s
    requires |w| > |s|
    ensures i < j < |w| && w[i] == w[j]
  {
    var last := w[|w| - 1];
    var front := w[..|w| - 1];
    if k :| 0 <= k < |front| && front[k] == last {
      i, j := k, |w| - 1;
    } else {
      i, j := Pigeonhole(front, s - {last});
    }
  }

  /** A walk of any wanted length inside a set where nobody is stuck. */
  lemma WalkInside(g: Graph, s: set<Uid>, start: Uid, n: nat) returns (w: seq<Uid>)
    requires s <= g.Keys && start in s
    requires forall u :: u in s ==> g[u] * s != {}
    ensures Walk(g, w) && |w| == n + 1 && w[0] == start
    ensures forall i :: 0 <= i < |w| ==> w[i] in s
  {
    if n == 0 {
      w := [start];
    } else {
      var v := WalkInside(g, s, start, n - 1);
      var next :| next in g[v[n - 1]] * s;
      w := v + [next];
    }
  }

  /** In a finite non-empty set where every node depends on another node of the set, some
      nodes of the set form a cycle that the start node reaches without leaving the set. */
  lemma NoSinkMeansCycle(g: Graph, s: set<Uid>, start: Uid) returns (lead: seq<Uid>, w: seq<Uid>)
    requires s <= g.Keys && start in s
    requires forall u :: u in s ==> g[u] * s != {}
    ensures ClosedWalk(g, w) && (forall i :: 0 <= i < |w| ==> w[i] in s)
    ensures Walk(g, lead) && lead[0] == start && lead[|lead| - 1] == w[0]
    ensures forall i :: 0 <= i < |lead| ==> lead[i] in s
  {
    var v := WalkInside(g, s, start, |s|);
    var i, j := Pigeonhole(v, s);
    WalkSlice(g, v, 0, i);
    WalkSlice(g, v, i, j);
    lead, w := v[0..i + 1], v[i..j + 1];
  }

  /** The subgraph on the nodes in `keep`. */
  function Restrict(g: Graph, keep: set<Uid>): Graph {
    map u | u in g && u in keep :: g[u]
  }

  /** `order` lists nodes so that every in-graph dependency of a node precedes it. */
  ghost predicate Topological(g: Graph, order: seq<Uid>) {
    && (forall i :: 0 <= i < |order| ==> order[i] in g)
    && (forall i, d :: 0 <= i < |order| && d in g[order[i]] && d in g ==> d in order[..i])
  }

  lemma TopologicalMeansAcyclic(g: Graph, order: seq<Uid>)
    requires Topological(g, order) && g.Keys == set u | u in order
    ensures !HasCycle(g)
  {
    if HasCycle(g) {
      var w :| ClosedWalk(g, w);
      var p := Position(order, w[0]);
      WalkDescends(g, order, w, p, |w| - 1);
    }
  }

  /** The first position of `u`. */
  function Position(order: seq<Uid>, u: Uid): (p: nat)
    requires u in order
    ensures p < |order| && order[p] == u && u !in order[..p]
  {
    if order[0] == u then 0 else Position(order[1..], u) + 1
  }

  lemma PositionIsFirst(order: seq<Uid>, u: Uid, i: nat)
    requires i < |order| && order[i] == u
    ensures Position(order, u) <= i
  {
    if order[0] != u {
      PositionIsFirst(order[1..], u, i - 1);
    }
  }

  lemma {:induction false} WalkDescends(g: Graph, order: seq<Uid>, w: seq<Uid>, p: nat, k: nat)
    requires Topological(g, order) && g.Keys == set u | u in order
    requires Walk(g, w) && p == Position(order, w[0]) && k < |w|
    ensures w[k] in order && Position(order, w[k]) <= p - k
  {
    if k > 0 {
      WalkDescends(g, order, w, p, k - 1);
      var q := Position(order, w[k - 1]);
      assert order[q] == w[k - 1];
      assert w[k] in order[..q];
      var i :| 0 <= i < q && order[..q][i] == w[k];
      PositionIsFirst(order, w[k], i);
    }
  }
}
