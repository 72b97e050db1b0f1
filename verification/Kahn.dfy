/** In-degree reduction over pending dependencies, and the least fixpoint it computes. */
module Kahn {
  import opened Jobs
  import opened Graphs
  import opened State

  /** For each candidate job, its dependencies that are not satisfied yet, repeats included. */
  type Pending = map<Uid, seq<Uid>>

  /** Every job whose pending dependencies all lie in `s` lies in `s`. */
  ghost predicate Closed(p: Pending, s: set<Uid>) {
    forall u :: u in p && (forall d :: d in p[u] ==> d in s) ==> u in s
  }

  /** `s` is the least fixpoint of "all my pending dependencies are reduced". */
  ghost predicate LeastFixpoint(p: Pending, s: set<Uid>) {
    s <= p.Keys && Closed(p, s) && forall t: set<Uid> :: Closed(p, t) ==> s <= t
  }

  function PendingGraph(p: Pending): Graph {
    map u | u in p :: SetOf(p[u])
  }

  lemma LeastFixpointUnique(p: Pending, s: set<Uid>, t: set<Uid>)
    requires LeastFixpoint(p, s) && LeastFixpoint(p, t)
    ensures s == t
  {
  }

  /** How many entries of `ds` are outside `gone`. */
  function CountOutside(ds: seq<Uid>, gone: set<Uid>): nat {
    if ds == [] then 0
    else (if ds[0] in gone then 0 else 1) + CountOutside(ds[1..], gone)
  }

  function Occurrences(ds: seq<Uid>, u: Uid): nat {
    multiset(ds)[u]
  }

  lemma OccurrencesAppend(ds: seq<Uid>, d: Uid, u: Uid)
    ensures Occurrences(ds + [d], u) == Occurrences(ds, u) + if u == d then 1 else 0
  {
  }

  lemma CountOutsideZero(ds: seq<Uid>, gone: set<Uid>)
    ensures CountOutside(ds, gone) == 0 <==> forall d :: d in ds ==> d in gone
  {
    if ds != [] {
      CountOutsideZero(ds[1..], gone);
      assert ds == [ds[0]] + ds[1..];
    }
  }

  lemma CountOutsideDrop(ds: seq<Uid>, gone: set<Uid>, x: Uid)
    requires x !in gone
    ensures CountOutside(ds, gone) == CountOutside(ds, gone + {x}) + Occurrences(ds, x)
  {
    if ds != [] {
      CountOutsideDrop(ds[1..], gone, x);
      assert ds == [ds[0]] + ds[1..];
    }
  }

  lemma CountOutsideAppend(ds: seq<Uid>, gone: set<Uid>, d: Uid)
    ensures CountOutside(ds + [d], gone) == CountOutside(ds, gone) + if d in gone then 0 else 1
  {
    if ds == [] {
      assert [d][1..] == [];
    } else {
      CountOutsideAppend(ds[1..], gone, d);
      assert (ds + [d])[1..] == ds[1..] + [d];
    }
  }

  /** `dependents` lists, for each dependency, its dependants, once per time it is listed. */
  ghost predicate Inverted(p: Pending, dependents: map<Uid, seq<Uid>>) {
    forall d, u :: Occurrences(At(dependents, d), u) == Occurrences(At(p, u), d)
  }

  function At(m: map<Uid, seq<Uid>>, u: Uid): seq<Uid> {
    if u in m then m[u] else []
  }

  /** The counters before and after a node is taken off the ready list. */
  ghost predicate Counted(p: Pending, indegree: map<Uid, nat>, reduced: set<Uid>) {
    indegree.Keys == p.Keys && forall u :: u in p ==> indegree[u] == CountOutside(p[u], reduced)
  }

  /** Counters while the dependants of `x` are being decremented. */
  ghost predicate Decrementing(p: Pending, indegree: map<Uid, nat>, reduced: set<Uid>, done: seq<Uid>) {
    && indegree.Keys == p.Keys
    && forall u :: u in p ==> indegree[u] == CountOutside(p[u], reduced) - Occurrences(done, u)
  }

  /** The reduced jobs in the order they came off the ready list. */
  ghost predicate Ordered(p: Pending, order: seq<Uid>) {
    && (forall i :: 0 <= i < |order| ==> order[i] in p)
    && (forall i, d :: 0 <= i < |order| && d in p[order[i]] ==> d in order[..i])
  }

  lemma {:induction false} OrderedInClosed(p: Pending, order: seq<Uid>, t: set<Uid>)
    requires Ordered(p, order) && Closed(p, t)
    ensures SetOf(order) <= t
  {
    if order != [] {
      var front, u := order[..|order| - 1], order[|order| - 1];
      assert Ordered(p, front) by {
        forall i, d | 0 <= i < |front| && d in p[front[i]] ensures d in front[..i] {
          assert d in order[..i] && order[..i] == front[..i];
        }
      }
      OrderedInClosed(p, front, t);
      forall d | d in p[u] ensures d in t {
        assert d in order[..|order| - 1] && d in SetOf(front);
      }
      assert order == front + [u];
    }
  }

  lemma OrderedExtends(p: Pending, order: seq<Uid>, u: Uid)
    requires Ordered(p, order) && u in p && forall d :: d in p[u] ==> d in order
    ensures Ordered(p, order + [u])
  {
    var o := order + [u];
    forall i, d | 0 <= i < |o| && d in p[o[i]] ensures d in o[..i] {
      assert o[..i] == order[..i];
      assert order[..|order|] == order;
    }
  }

  /** Between two turns: the ready list holds exactly the unreduced jobs that wait for nothing. */
  ghost predicate Progress(p: Pending, indegree: map<Uid, nat>, ready: seq<Uid>, reduced: set<Uid>) {
    && Counted(p, indegree, reduced) && reduced <= p.Keys
    && NoRepeats(ready) && SetOf(ready) !! reduced && SetOf(ready) <= p.Keys
    && forall u :: u in p ==> (indegree[u] == 0 <==> u in ready || u in reduced)
  }

  /** Take `x`, just popped, out of its dependants' counters; those that drop to zero become
      ready. */
  method Release(p: Pending, dependents: map<Uid, seq<Uid>>, indegree0: map<Uid, nat>, ready0: seq<Uid>,
                 reduced: set<Uid>, x: Uid)
    returns (indegree: map<Uid, nat>, ready: seq<Uid>)
    requires Inverted(p, dependents) && Progress(p, indegree0, ready0 + [x], reduced)
    ensures Progress(p, indegree, ready, reduced + {x})
  {
    indegree, ready := indegree0, ready0;
    var children := At(dependents, x);
    AppendOne(ready0, x);
    assert x in SetOf(ready0 + [x]) && forall u :: u in ready0 + [x] <==> u in ready0 || u == x;
    for i := 0 to |children|
      invariant Releasing(p, indegree, ready, reduced, x, children[..i])
    {
      ReleaseOne(p, dependents, indegree, ready, reduced, x, i);
      var child := children[i];
      indegree := indegree[child := indegree[child] - 1];
      if indegree[child] == 0 {
        ready := ready + [child];
      }
    }
    assert children[..|children|] == children;
    forall u | u in p ensures indegree[u] == CountOutside(p[u], reduced + {x}) {
      CountOutsideDrop(p[u], reduced, x);
      assert Occurrences(At(dependents, x), u) == Occurrences(At(p, u), x);
    }
  }

  /** The dependants in `done` have been decremented once per entry. */
  ghost predicate Releasing(p: Pending, indegree: map<Uid, nat>, ready: seq<Uid>, reduced: set<Uid>, x: Uid,
                            done: seq<Uid>)
  {
    && Decrementing(p, indegree, reduced, done) && reduced <= p.Keys && x in p && x !in reduced
    && NoRepeats(ready) && x !in ready && SetOf(ready) !! reduced && SetOf(ready) <= p.Keys
    && forall u :: u in p ==> (indegree[u] == 0 <==> u in ready || u in reduced || u == x)
  }

  lemma ReleaseOne(p: Pending, dependents: map<Uid, seq<Uid>>, indegree: map<Uid, nat>, ready: seq<Uid>,
                   reduced: set<Uid>, x: Uid, i: nat)
    requires Inverted(p, dependents) && i < |At(dependents, x)|
    requires Releasing(p, indegree, ready, reduced, x, At(dependents, x)[..i])
    ensures var child := At(dependents, x)[i];
      && child in indegree && indegree[child] > 0
      && var after := indegree[child := indegree[child] - 1];
         var more := if after[child] == 0 then ready + [child] else ready;
         Releasing(p, after, more, reduced, x, At(dependents, x)[..i + 1])
  {
    var children := At(dependents, x);
    var child := children[i];
    OccurrenceAhead(children, i);
    assert Occurrences(At(dependents, x), child) == Occurrences(At(p, child), x);
    assert child in p;
    CountOutsideDrop(p[child], reduced, x);
    AppendOne(ready, child);
  }

  lemma OccurrenceAhead(ds: seq<Uid>, i: nat)
    requires i < |ds|
    ensures Occurrences(ds, ds[i]) >= Occurrences(ds[..i], ds[i]) + 1
    ensures forall u :: Occurrences(ds[..i + 1], u) == Occurrences(ds[..i], u) + if u == ds[i] then 1 else 0
  {
    assert ds == ds[..i] + [ds[i]] + ds[i + 1..];
    assert ds[..i + 1] == ds[..i] + [ds[i]];
  }

  method Unblocked(indegree: map<Uid, nat>) returns (ready: seq<Uid>)
    ensures NoRepeats(ready) && forall u :: u in ready <==> u in indegree && indegree[u] == 0
  {
    ready := [];
    var keys := indegree.Keys;
    while keys != {}
      invariant keys <= indegree.Keys && NoRepeats(ready)
      invariant forall u :: u in ready <==> u in indegree.Keys - keys && indegree[u] == 0
    {
      var u :| u in keys;
      keys := keys - {u};
      if indegree[u] == 0 {
        AppendOne(ready, u);
        ready := ready + [u];
      }
    }
  }

  /** The reduction loop: `ready` is a stack, each counter drops once per listed occurrence. */
  method Reduce(p: Pending) returns (reduced: set<Uid>)
    ensures LeastFixpoint(p, reduced)
  {
    var indegree, dependents := CountPending(p);
    var ready := Unblocked(indegree);
    forall u ensures u in SetOf(ready) <==> u in p && indegree[u] == 0 {
    }
    reduced := {};
    ghost var order: seq<Uid> := [];
    while ready != []
      invariant Inverted(p, dependents) && Progress(p, indegree, ready, reduced)
      invariant Ordered(p, order) && reduced == SetOf(order)
      decreases p.Keys - reduced
    {
      var x := ready[|ready| - 1];
      assert ready == ready[..|ready| - 1] + [x] && x in SetOf(ready);
      ready := ready[..|ready| - 1];
      CountOutsideZero(p[x], reduced);
      OrderedExtends(p, order, x);
      AppendOne(order, x);
      order := order + [x];
      indegree, ready := Release(p, dependents, indegree, ready, reduced, x);
      reduced := reduced + {x};
    }
    forall u | u in p && (forall d :: d in p[u] ==> d in reduced) ensures u in reduced {
      CountOutsideZero(p[u], reduced);
    }
    forall t | Closed(p, t) ensures reduced <= t {
      OrderedInClosed(p, order, t);
    }
  }

  /** The index of the jobs outside `keys`, and of the first dependencies `done` of `cur`. */
  ghost predicate Inverting(p: Pending, dependents: map<Uid, seq<Uid>>, keys: set<Uid>, cur: Option<Uid>,
                            done: seq<Uid>)
  {
    forall d, u :: InvertedAt(p, dependents, keys, cur, done, d, u)
  }

  /** How often `u` is listed under `d`: as far as its own row has been read, or not at all yet. */
  ghost predicate InvertedAt(p: Pending, dependents: map<Uid, seq<Uid>>, keys: set<Uid>, cur: Option<Uid>,
                             done: seq<Uid>, d: Uid, u: Uid)
  {
    Occurrences(At(dependents, d), u) ==
      if cur == Some(u) then Occurrences(done, d) else if u in keys then 0 else Occurrences(At(p, u), d)
  }

  lemma InvertOne(p: Pending, dependents: map<Uid, seq<Uid>>, keys: set<Uid>, u: Uid, done: seq<Uid>, d: Uid)
    requires Inverting(p, dependents, keys, Some(u), done)
    ensures Inverting(p, dependents[d := At(dependents, d) + [u]], keys, Some(u), done + [d])
  {
    var after := dependents[d := At(dependents, d) + [u]];
    forall e, v ensures InvertedAt(p, after, keys, Some(u), done + [d], e, v) {
      assert InvertedAt(p, dependents, keys, Some(u), done, e, v);
      OccurrencesAppend(done, d, e);
      OccurrencesAppend(At(dependents, d), u, v);
    }
  }

  /** Starting on `u` ... */
  lemma InvertStart(p: Pending, dependents: map<Uid, seq<Uid>>, keys: set<Uid>, u: Uid)
    requires u in keys && u in p && Inverting(p, dependents, keys, None, [])
    ensures Inverting(p, dependents, keys, Some(u), [])
  {
    forall d, v ensures InvertedAt(p, dependents, keys, Some(u), [], d, v) {
      assert InvertedAt(p, dependents, keys, None, [], d, v);
    }
  }

  /** ... and being done with it. */
  lemma InvertEnd(p: Pending, dependents: map<Uid, seq<Uid>>, keys: set<Uid>, u: Uid)
    requires u in keys && u in p && Inverting(p, dependents, keys, Some(u), p[u])
    ensures Inverting(p, dependents, keys - {u}, None, [])
  {
    forall d, v ensures InvertedAt(p, dependents, keys - {u}, None, [], d, v) {
      assert InvertedAt(p, dependents, keys, Some(u), p[u], d, v);
    }
  }

  /** Count the pending dependencies of `u` and index them. */
  method CountOne(p: Pending, dependents0: map<Uid, seq<Uid>>, ghost keys: set<Uid>, u: Uid)
    returns (count: nat, dependents: map<Uid, seq<Uid>>)
    requires u in keys && u in p && Inverting(p, dependents0, keys, None, [])
    ensures count == CountOutside(p[u], {}) && Inverting(p, dependents, keys - {u}, None, [])
  {
    count, dependents := 0, dependents0;
    ghost var done: seq<Uid> := [];
    InvertStart(p, dependents, keys, u);
    for i := 0 to |p[u]|
      invariant done == p[u][..i] && count == CountOutside(done, {})
      invariant Inverting(p, dependents, keys, Some(u), done)
    {
      var d := p[u][i];
      CountOutsideAppend(done, {}, d);
      InvertOne(p, dependents, keys, u, done, d);
      count := count + 1;
      dependents := dependents[d := At(dependents, d) + [u]];
      done := done + [d];
    }
    assert p[u][..|p[u]|] == p[u];
    InvertEnd(p, dependents, keys, u);
  }

  /** Count every job's pending dependencies and index them by dependency. */
  method CountPending(p: Pending) returns (indegree: map<Uid, nat>, dependents: map<Uid, seq<Uid>>)
    ensures Counted(p, indegree, {}) && Inverted(p, dependents)
  {
    indegree, dependents := map[], map[];
    var keys := p.Keys;
    while keys != {}
      invariant keys <= p.Keys && indegree.Keys == p.Keys - keys
      invariant forall u :: u in indegree ==> indegree[u] == CountOutside(p[u], {})
      invariant Inverting(p, dependents, keys, None, [])
    {
      var u :| u in keys;
      var count;
      count, dependents := CountOne(p, dependents, keys, u);
      indegree := indegree[u := count];
      keys := keys - {u};
    }
    InvertedAll(p, dependents);
  }

  lemma InvertedAll(p: Pending, dependents: map<Uid, seq<Uid>>)
    requires Inverting(p, dependents, {}, None, [])
    ensures Inverted(p, dependents)
  {
    forall d, u ensures Occurrences(At(dependents, d), u) == Occurrences(At(p, u), d) {
      assert InvertedAt(p, dependents, {}, None, [], d, u);
    }
  }

  // ---- what is left over ----

  /** From `u`, following pending dependencies, one can get stuck: on a job that waits for a
      uid that is no candidate, or on a cycle. */
  ghost predicate Hopeless(p: Pending, u: Uid) {
    exists v :: Reaches(PendingGraph(p), u, v) && (WaitsForUnknown(p, v) || OnCycle(PendingGraph(p), v))
  }

  ghost predicate WaitsForUnknown(p: Pending, u: Uid) {
    u in p && exists d :: d in p[u] && d !in p
  }

  /** The jobs the reduction leaves over are exactly the hopeless ones. */
  lemma LeftoverIsHopeless(p: Pending, reduced: set<Uid>, u: Uid)
    requires LeastFixpoint(p, reduced) && u in p
    ensures u !in reduced <==> Hopeless(p, u)
  {
    if Hopeless(p, u) {
      HopelessNotReduced(p, reduced, u);
    }
    if u !in reduced {
      NotReducedHopeless(p, reduced, u);
    }
  }

  lemma HopelessNotReduced(p: Pending, reduced: set<Uid>, u: Uid)
    requires LeastFixpoint(p, reduced) && u in p && Hopeless(p, u)
    ensures u !in reduced
  {
    var t := set v | v in p && !Hopeless(p, v);
    assert Closed(p, t) by {
      forall v | v in p && (forall d :: d in p[v] ==> d in t) ensures v in t {
        if Hopeless(p, v) {
          HopelessHasHopelessDep(p, v);
        }
      }
    }
  }

  /** A hopeless job has a pending dependency that is unknown or hopeless itself. */
  lemma HopelessHasHopelessDep(p: Pending, u: Uid)
    requires u in p && Hopeless(p, u)
    ensures exists d :: d in p[u] && (d !in p || Hopeless(p, d))
  {
    var g := PendingGraph(p);
    var v :| Reaches(g, u, v) && (WaitsForUnknown(p, v) || OnCycle(g, v));
    var w :| Walk(g, w) && w[0] == u && w[|w| - 1] == v;
    if |w| > 1 {
      assert Walk(g, w[1..]) && w[1] in p[u];
      assert Reaches(g, w[1], v);
      assert Hopeless(p, w[1]);
    } else if OnCycle(g, v) {
      var c :| ClosedWalk(g, c) && c[0] == v;
      ClosedWalkMembersOnCycle(g, c, 1);
      ReachesSelf(g, c[1]);
      assert c[1] in p[u] && Hopeless(p, c[1]);
    }
  }

  lemma NotReducedHopeless(p: Pending, reduced: set<Uid>, u: Uid)
    requires LeastFixpoint(p, reduced) && u in p && u !in reduced
    ensures Hopeless(p, u)
  {
    var g := PendingGraph(p);
    var left := p.Keys - reduced;
    var reach := set v | v in left && Reaches(g, u, v);
    ReachesSelf(g, u);
    if v :| v in reach && WaitsForUnknown(p, v) {
    } else {
      forall v | v in reach ensures g[v] * reach != {} {
        var d :| d in p[v] && d !in reduced;
        assert !WaitsForUnknown(p, v);
        ReachesStep(g, v, d);
        ReachesTransitive(g, u, v, d);
        assert d in g[v] * reach;
      }
      var lead, w := NoSinkMeansCycle(g, reach, u);
      assert OnCycle(g, w[0]);
    }
  }

  /** A leftover with every pending dependency known contains a cycle of leftovers. */
  lemma LeftoverHasCycle(p: Pending, reduced: set<Uid>) returns (w: seq<Uid>)
    requires LeastFixpoint(p, reduced) && reduced != p.Keys
    requires forall u, d :: u in p && d in p[u] ==> d in p
    ensures ClosedWalk(Restrict(PendingGraph(p), p.Keys - reduced), w)
  {
    var left := p.Keys - reduced;
    var start :| start in p && start !in reduced;
    LeftoverHasNoSink(p, reduced);
    w := CycleInside(Restrict(PendingGraph(p), left), left, start);
  }

  lemma CycleInside(g: Graph, s: set<Uid>, start: Uid) returns (w: seq<Uid>)
    requires s <= g.Keys && start in s && forall u :: u in s ==> g[u] * s != {}
    ensures ClosedWalk(g, w)
  {
    var lead;
    lead, w := NoSinkMeansCycle(g, s, start);
  }

  lemma LeftoverHasNoSink(p: Pending, reduced: set<Uid>)
    requires LeastFixpoint(p, reduced) && forall u, d :: u in p && d in p[u] ==> d in p
    ensures var left := p.Keys - reduced;
      var g := Restrict(PendingGraph(p), left);
      left <= g.Keys && forall u :: u in left ==> g[u] * left != {}
  {
    var left := p.Keys - reduced;
    var g := Restrict(PendingGraph(p), left);
    forall u | u in left ensures g[u] * left != {} {
      var d :| d in p[u] && d !in reduced;
      assert d in g[u] * left;
    }
  }

  /** No cycle runs inside the reduced jobs: a non-empty set of them always has a member
      without a pending dependency in the set. */
  lemma ReducedHasNoTrap(p: Pending, reduced: set<Uid>, trap: set<Uid>)
    requires LeastFixpoint(p, reduced) && trap <= reduced
    requires forall u :: u in trap ==> exists d :: d in p[u] && d in trap
    ensures trap == {}
  {
    assert Closed(p, reduced - trap);
    assert reduced <= reduced - trap;
  }
}
