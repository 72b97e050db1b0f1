/** The in-memory pipeline state: queue, in-flight and terminal indexes, the cascade closure
    and the explicit-stack dependency-cycle detector. */
module State {
  import opened Jobs
  import opened Graphs
  import opened CycleSearch

  /** The abstract value of a pipeline state; the uid indexes are derived from it. */
  datatype Mem = Mem(
    queue: seq<Row>,
    inFlight: set<Uid>,
    successes: map<Uid, Meta>,
    failed: map<Uid, Meta>,
    cursors: map<string, string>,
    triggerSkipped: set<Uid>)
  {
    function QueueUids(): set<Uid> { UidSet(queue) }

    /** The two mutual exclusions the debug assertions check. */
    ghost predicate Exclusive() {
      QueueUids() !! inFlight && successes.Keys !! failed.Keys
    }

    predicate DependencyReady(u: Uid) {
      u !in QueueUids() && u !in inFlight && (u in successes || u in triggerSkipped)
    }

    function Spawn(rows: seq<Row>, front: bool): Mem {
      this.(queue := if front then rows + queue else queue + rows,
            triggerSkipped := triggerSkipped - UidSet(rows))
    }

    function RemoveQueued(u: Uid): Mem {
      this.(queue := Without(queue, {u}))
    }

    function Register(u: Uid): Mem { this.(inFlight := inFlight + {u}) }

    function Unregister(u: Uid): Mem { this.(inFlight := inFlight - {u}) }

    function ReplaceQueue(rows: seq<Row>): Mem {
      this.(queue := rows, triggerSkipped := triggerSkipped - UidSet(rows))
    }

    function MarkSuccess(u: Uid, m: Meta): Mem {
      this.(successes := successes[u := m], failed := failed - {u}, triggerSkipped := triggerSkipped - {u})
    }

    function MarkFailed(u: Uid, m: Meta): Mem {
      this.(failed := failed[u := m], successes := successes - {u}, triggerSkipped := triggerSkipped - {u})
    }

    function MarkTriggerSkipped(u: Uid): Mem { this.(triggerSkipped := triggerSkipped + {u}) }

    function UpdateCursors(updates: map<string, Option<string>>): Mem {
      this.(cursors := MergeCursors(cursors, updates))
    }
  }

  /** Overwrite the keys with a value, drop the keys with none. */
  function MergeCursors(cursors: map<string, string>, updates: map<string, Option<string>>): map<string, string> {
    map k | k in cursors.Keys + updates.Keys && (k in updates ==> updates[k].Some?) ::
      if k in updates then updates[k].value else cursors[k]
  }

  /** The dependency graph of the parseable rows whose uid passes `nodes`; on a repeated uid
      the later row wins. */
  function DependencyGraph(queue: seq<Row>, nodes: Option<set<Uid>>): Graph {
    if queue == [] then map[]
    else
      var rest := DependencyGraph(queue[..|queue| - 1], nodes);
      var row := queue[|queue| - 1];
      if row.Job? && (nodes.None? || row.uid in nodes.value)
      then rest[row.uid := set d | d in row.Deps()]
      else rest
  }

  lemma GraphOfRows(queue: seq<Row>, nodes: Option<set<Uid>>)
    ensures forall u :: u in DependencyGraph(queue, nodes) <==>
      (nodes.None? || u in nodes.value) && exists r :: r in queue && r.Job? && r.uid == u
    ensures DistinctUids(queue) ==> forall r :: r in queue && r.Job? && (nodes.None? || r.uid in nodes.value) ==>
      DependencyGraph(queue, nodes)[r.uid] == set d | d in r.Deps()
  {
    forall u ensures u in DependencyGraph(queue, nodes) <==>
      (nodes.None? || u in nodes.value) && exists r :: r in queue && r.Job? && r.uid == u
    {
      GraphKey(queue, nodes, u);
    }
    if DistinctUids(queue) {
      forall r | r in queue && r.Job? && (nodes.None? || r.uid in nodes.value)
        ensures DependencyGraph(queue, nodes)[r.uid] == set d | d in r.Deps()
      {
        GraphEdges(queue, nodes, r);
      }
    }
  }

  lemma {:induction false} GraphKey(queue: seq<Row>, nodes: Option<set<Uid>>, u: Uid)
    ensures u in DependencyGraph(queue, nodes) <==>
      (nodes.None? || u in nodes.value) && exists r :: r in queue && r.Job? && r.uid == u
  {
    if queue != [] {
      var front, row := queue[..|queue| - 1], queue[|queue| - 1];
      GraphKey(front, nodes, u);
      assert queue == front + [row];
      if r :| r in queue && r.Job? && r.uid == u {
        assert r in front || r == row;
      }
    }
  }

  lemma {:induction false} GraphEdges(queue: seq<Row>, nodes: Option<set<Uid>>, r: Row)
    requires DistinctUids(queue) && r in queue && r.Job? && (nodes.None? || r.uid in nodes.value)
    ensures r.uid in DependencyGraph(queue, nodes)
    ensures DependencyGraph(queue, nodes)[r.uid] == set d | d in r.Deps()
  {
    var front, row := queue[..|queue| - 1], queue[|queue| - 1];
    assert queue == front + [row];
    if r != row {
      var i :| 0 <= i < |front| && front[i] == r;
      assert queue[i].uid != queue[|queue| - 1].uid;
      GraphEdges(front, nodes, r);
    }
  }

  /** Restricting the rows is restricting the graph of all rows. */
  lemma {:induction false} GraphRestricts(queue: seq<Row>, nodes: set<Uid>)
    ensures DependencyGraph(queue, Some(nodes)) == Restrict(DependencyGraph(queue, None), nodes)
  {
    if queue != [] {
      GraphRestricts(queue[..|queue| - 1], nodes);
    }
  }

  /** `v` is downstream of `u` through rows a failure may still propagate to: parseable rows
      that are not excluded and have no terminal record. */
  ghost predicate Open(m: Mem, excluded: set<Uid>, u: Uid) {
    u !in excluded && u !in m.successes && u !in m.failed
  }

  /** `u` has a parseable queue row that lists `d`. */
  ghost predicate DependsOn(queue: seq<Row>, u: Uid, d: Uid) {
    exists r :: r in queue && r.Job? && r.uid == u && d in r.Deps()
  }

  lemma DependsOnAppend(rows: seq<Row>, row: Row)
    ensures forall u, d :: DependsOn(rows + [row], u, d) <==>
      DependsOn(rows, u, d) || (row.Job? && u == row.uid && d in row.Deps())
  {
    forall u, d
      ensures DependsOn(rows + [row], u, d) <==>
        DependsOn(rows, u, d) || (row.Job? && u == row.uid && d in row.Deps())
    {
      assert forall r :: r in rows + [row] <==> r in rows || r == row;
    }
  }

  /** `dependents` is the reverse index of the dependencies of `rows`, together with the
      dependencies in `done` of the row of `u` being indexed. */
  ghost predicate Indexes(dependents: map<Uid, set<Uid>>, rows: seq<Row>, done: seq<Uid>, u: Option<Uid>) {
    && (forall d, v :: d in dependents && v in dependents[d] ==> DependsOn(rows, v, d) || (d in done && u == Some(v)))
    && (forall d, v :: DependsOn(rows, v, d) ==> d in dependents && v in dependents[d])
    && (forall d :: d in done && u.Some? ==> d in dependents && u.value in dependents[d])
  }

  /** A path of dependants: each node depends on the one before it and is open. */
  ghost predicate CascadePath(m: Mem, excluded: set<Uid>, p: seq<Uid>) {
    && |p| > 0
    && forall i :: 0 < i < |p| ==> DependsOn(m.queue, p[i], p[i - 1]) && Open(m, excluded, p[i])
  }

  ghost predicate Downstream(m: Mem, excluded: set<Uid>, root: Uid, u: Uid) {
    exists p :: CascadePath(m, excluded, p) && |p| > 1 && p[0] == root && p[|p| - 1] == u
  }

  lemma DownstreamExtends(m: Mem, excluded: set<Uid>, root: Uid, u: Uid, v: Uid)
    requires u == root || Downstream(m, excluded, root, u)
    requires DependsOn(m.queue, v, u) && Open(m, excluded, v)
    ensures Downstream(m, excluded, root, v)
  {
    var p := [root];
    if u != root {
      p :| CascadePath(m, excluded, p) && |p| > 1 && p[0] == root && p[|p| - 1] == u;
    }
    assert CascadePath(m, excluded, p + [v]);
  }

  /** A set closed under open dependants contains everything downstream of its root. */
  lemma {:induction false} DownstreamLeast(m: Mem, excluded: set<Uid>, s: set<Uid>, p: seq<Uid>)
    requires CascadePath(m, excluded, p) && p[0] in s
    requires forall u, v :: u in s && DependsOn(m.queue, v, u) && Open(m, excluded, v) ==> v in s
    ensures p[|p| - 1] in s
  {
    if |p| > 1 {
      DownstreamLeast(m, excluded, s, p[..|p| - 1]);
    }
  }

  class PipelineState {
    var queue: seq<Row>
    var queueUids: set<Uid>
    var inFlight: set<Uid>
    var successes: map<Uid, Meta>
    var successUids: set<Uid>
    var failed: map<Uid, Meta>
    var failedUids: set<Uid>
    var cursors: map<string, string>
    var triggerSkipped: set<Uid>

    /** The incremental uid indexes never drift from what they index. */
    ghost predicate Valid()
      reads this
    {
      queueUids == UidSet(queue) && successUids == successes.Keys && failedUids == failed.Keys
    }

    ghost function View(): Mem
      reads this
    {
      Mem(queue, inFlight, successes, failed, cursors, triggerSkipped)
    }

    constructor (s: map<Uid, Meta>, f: map<Uid, Meta>, c: map<string, string>, q: seq<Row>)
      ensures Valid() && View() == Mem(q, {}, s, f, c, {})
    {
      successes, failed, cursors, queue := s, f, c, q;
      successUids, failedUids := s.Keys, f.Keys;
      queueUids := UidSet(q);
      inFlight, triggerSkipped := {}, {};
    }

    /** Remove and return one row. Discarding its uid from the index is right because the
        uid occurs once. */
    method PopJob(i: nat) returns (row: Row)
      requires Valid() && i < |queue| && DistinctUids(queue)
      modifies this
      ensures Valid() && row == old(queue)[i]
      ensures View() == old(View()).(queue := old(queue)[..i] + old(queue)[i + 1..])
      ensures row.uid !in queueUids && queueUids == old(queueUids) - {row.uid}
    {
      row := queue[i];
      PopUids(queue, i);
      queue := queue[..i] + queue[i + 1..];
      queueUids := queueUids - {row.uid};
    }

    method SpawnJobs(rows: seq<Row>, front: bool)
      requires Valid()
      modifies this
      ensures Valid() && View() == old(View()).Spawn(rows, front)
    {
      if front {
        UidSetAppend(rows, queue);
        queue := rows + queue;
      } else {
        UidSetAppend(queue, rows);
        queue := queue + rows;
      }
      triggerSkipped := triggerSkipped - UidSet(rows);
      queueUids := queueUids + UidSet(rows);
    }

    method RemoveQueuedUid(u: Uid)
      requires Valid()
      modifies this
      ensures Valid() && View() == old(View()).RemoveQueued(u)
    {
      WithoutShrinks(queue, {u});
      WithoutUids(queue, {u});
      if u !in queueUids {
        return;
      }
      queue := Without(queue, {u});
      queueUids := queueUids - {u};
    }

    method RegisterInFlight(u: Uid)
      requires Valid() && View().Register(u).Exclusive()  // the debug assertion, on exit
      modifies this
      ensures Valid() && View() == old(View()).Register(u)
    {
      inFlight := inFlight + {u};
    }

    method UnregisterInFlight(u: Uid)
      requires Valid() && View().Unregister(u).Exclusive()  // the debug assertion, on exit
      modifies this
      ensures Valid() && View() == old(View()).Unregister(u)
    {
      inFlight := inFlight - {u};
    }

    method ReplaceQueue(rows: seq<Row>)
      requires Valid()
      modifies this
      ensures Valid() && View() == old(View()).ReplaceQueue(rows)
    {
      queue := rows;
      queueUids := UidSet(rows);
      triggerSkipped := triggerSkipped - queueUids;
    }

    method MarkSuccess(u: Uid, m: Meta)
      requires Valid()
      modifies this
      ensures Valid() && View() == old(View()).MarkSuccess(u, m)
    {
      triggerSkipped := triggerSkipped - {u};
      failed := failed - {u};
      failedUids := failedUids - {u};
      successes := successes[u := m];
      successUids := successUids + {u};
    }

    method MarkFailed(u: Uid, m: Meta)
      requires Valid()
      modifies this
      ensures Valid() && View() == old(View()).MarkFailed(u, m)
    {
      triggerSkipped := triggerSkipped - {u};
      successes := successes - {u};
      successUids := successUids - {u};
      failed := failed[u := m];
      failedUids := failedUids + {u};
    }

    /** A job that its trigger kept out of this run counts as a met dependency. */
    method MarkTriggerSkipped(u: Uid)
      requires Valid()
      modifies this
      ensures Valid() && View() == old(View()).MarkTriggerSkipped(u)
    {
      triggerSkipped := triggerSkipped + {u};
    }

    method UpdateCursors(updates: map<string, Option<string>>)
      requires Valid()
      modifies this
      ensures Valid() && View() == old(View()).UpdateCursors(updates)
    {
      var todo := updates.Keys;
      while todo != {}
        invariant todo <= updates.Keys && Valid()
        invariant View() == old(View()).(cursors := cursors)
        invariant forall k :: k in cursors <==>
          if k in updates.Keys - todo then updates[k].Some? else k in old(cursors)
        invariant forall k :: k in cursors ==>
          cursors[k] == if k in updates.Keys - todo then updates[k].value else old(cursors)[k]
      {
        var k :| k in todo;
        todo := todo - {k};
        cursors := if updates[k].None? then cursors - {k} else cursors[k := updates[k].value];
      }
      assert cursors == MergeCursors(old(cursors), updates);
    }

    /** Reverse dependency index over the parseable rows. */
    method BuildDependents() returns (dependents: map<Uid, set<Uid>>)
      ensures Indexes(dependents, queue, [], None)
    {
      dependents := map[];
      ghost var seen: seq<Row> := [];
      for i := 0 to |queue|
        invariant seen == queue[..i]
        invariant Indexes(dependents, seen, [], None)
      {
        var row := queue[i];
        if row.Job? {
          var deps := row.Deps();
          ghost var done: seq<Uid> := [];
          for k := 0 to |deps|
            invariant done == deps[..k]
            invariant Indexes(dependents, seen, done, Some(row.uid))
          {
            var d := deps[k];
            var already := if d in dependents then dependents[d] else {};
            dependents := dependents[d := already + {row.uid}];
            done := done + [d];
          }
        }
        DependsOnAppend(seen, row);
        seen := seen + [row];
      }
      assert queue[..|queue|] == queue;
    }

    /** The dependency cycles met by a depth-first search of the graph restricted to `nodes`,
        with an explicit stack of iterators: each back edge to a gray node contributes the
        path from that node on, closed by the node itself. `states` is the search; what it lists
        of each node is `ListedIffClosesBack`. */
    method FindDependencyCycles(nodes: Option<set<Uid>>)
      returns (members: seq<Uid>, ghost segments: seq<seq<Uid>>, ghost states: seq<Search>)
      ensures Recorded(DependencyGraph(queue, nodes), members, segments)
      ensures forall u :: u in members ==> OnCycle(DependencyGraph(queue, nodes), u)
      ensures members != [] <==> HasCycle(DependencyGraph(queue, nodes))
      ensures WholeSearch(DependencyGraph(queue, nodes), states) && states[|states| - 1].members == members
      ensures SingleDependencies(DependencyGraph(queue, nodes)) ==>
        forall u :: OnCycle(DependencyGraph(queue, nodes), u) ==> u in members
    {
      var g := BuildEdges(nodes);
      var s := NOTHING;
      ghost var order: seq<Uid> := [];
      segments, states := [], [s];
      var roots := g.Keys;
      while roots != {}
        invariant roots <= g.Keys && s.path == []
        invariant Exploring(g, s, order, segments) && EndsIn(g, states, s)
        invariant forall u :: u in g && u !in roots ==> ColorOf(s.color, u) == Black
      {
        var root :| root in roots;
        roots := roots - {root};
        if ColorOf(s.color, root) == White {
          s, order, segments, states := Explore(g, s, order, segments, states, root);
        }
      }
      ExploredIsExact(g, s, order, segments);
      members := s.members;
      if SingleDependencies(g) {
        forall u | OnCycle(g, u) ensures u in members {
          SingleDependenciesListAll(g, states, u);
        }
      }
    }

    /** The inner loop: everything reachable from `root` that was white turns black. */
    method Explore(g: Graph, s0: Search, ghost order0: seq<Uid>, ghost segments0: seq<seq<Uid>>,
                   ghost states0: seq<Search>, root: Uid)
      returns (s: Search, ghost order: seq<Uid>, ghost segments: seq<seq<Uid>>, ghost states: seq<Search>)
      requires Exploring(g, s0, order0, segments0) && s0.path == [] && root in g && ColorOf(s0.color, root) == White
      requires EndsIn(g, states0, s0)
      ensures Exploring(g, s, order, segments) && s.path == [] && EndsIn(g, states, s)
      ensures ColorOf(s.color, root) == Black
      ensures forall u :: ColorOf(s0.color, u) == Black ==> ColorOf(s.color, u) == Black
    {
      StartKeeps(g, s0, order0, segments0, root);
      s, order, segments := s0.Start(g, root), order0, segments0;
      TraceGrows(g, states0, s);
      states := states0 + [s];
      while s.frames != []
        invariant Exploring(g, s, order, segments) && root in s.color && EndsIn(g, states, s)
        invariant forall u :: ColorOf(s0.color, u) == Black ==> ColorOf(s.color, u) == Black
        decreases g.Keys - s.color.Keys, |s.frames|, s.Top()
      {
        ghost var before := states;
        s, order, segments := Advance(g, s, order, segments);
        TraceGrows(g, before, s);
        states := before + [s];
      }
    }

    /** One turn of the inner loop: take the next dependency off the top frame's iterator, or
        leave the node when there is none. */
    method Advance(g: Graph, s: Search, ghost order: seq<Uid>, ghost segments: seq<seq<Uid>>)
      returns (t: Search, ghost order': seq<Uid>, ghost segments': seq<seq<Uid>>)
      requires Exploring(g, s, order, segments) && s.frames != []
      ensures Exploring(g, t, order', segments') && StepsTo(g, s, t)
      ensures s.color.Keys <= t.color.Keys
      ensures forall u :: ColorOf(s.color, u) == Black ==> ColorOf(t.color, u) == Black
      ensures
        || g.Keys - t.color.Keys < g.Keys - s.color.Keys
        || (t.color.Keys == s.color.Keys && |t.frames| < |s.frames|)
        || (t.color.Keys == s.color.Keys && |t.frames| == |s.frames| && t.Top() < s.Top())
    {
      if s.Top() == {} {
        FinishKeeps(g, s, order, segments);
        order', segments' := order + [s.path[|s.path| - 1]], segments;
        t := s.Finish();
      } else {
        var dep :| dep in s.Top();
        order' := order;
        segments' := LookKeeps(g, s, order, segments, dep);
        t := s.Look(g, dep);
      }
    }

    method BuildEdges(nodes: Option<set<Uid>>) returns (edges: map<Uid, set<Uid>>)
      ensures edges == DependencyGraph(queue, nodes)
    {
      edges := map[];
      for i := 0 to |queue|
        invariant edges == DependencyGraph(queue[..i], nodes)
      {
        assert queue[..i + 1][..i] == queue[..i];
        var row := queue[i];
        if row.Job? && (nodes.None? || row.uid in nodes.value) {
          edges := edges[row.uid := set d | d in row.Deps()];
        }
      }
      assert queue[..|queue|] == queue;
    }

    /** The jobs a permanent failure of `root` takes with it: exactly the uids downstream of it
        through open rows, each once. `root` itself is never listed. */
    method CascadeFail(root: Uid, excluded: set<Uid>) returns (cascade: seq<Uid>)
      ensures NoRepeats(cascade) && root !in cascade
      ensures forall u :: u in cascade <==> u != root && Downstream(View(), excluded, root, u)
    {
      var m := Mem(queue, inFlight, successes, failed, cursors, triggerSkipped);
      var dependents := BuildDependents();
      cascade := [];
      var stack := [root];
      var seen := {root};
      while stack != []
        invariant Cascading(m, excluded, root, stack, seen, cascade)
        invariant forall u, v :: u in seen && u !in stack && DependsOn(m.queue, v, u) && Open(m, excluded, v) ==>
          v in seen
        decreases DependantUids(m.queue) + {root} - seen, |stack|
      {
        ghost var seen0, stack0 := seen, stack;
        var cur := stack[|stack| - 1];
        stack := stack[..|stack| - 1];
        assert stack0 == stack + [cur];
        var found := if cur in dependents then dependents[cur] else {};
        stack, seen, cascade := VisitDependants(m, excluded, root, cur, found, stack, seen, cascade);
        DependantsGrow(m.queue, seen0, seen, root);
      }
      forall u | u != root && Downstream(m, excluded, root, u) ensures u in cascade {
        var p :| CascadePath(m, excluded, p) && |p| > 1 && p[0] == root && p[|p| - 1] == u;
        DownstreamLeast(m, excluded, seen, p);
      }
    }

    /** The open dependants of `cur` that were not seen yet join the cascade and the stack. */
    static method VisitDependants(m: Mem, excluded: set<Uid>, ghost root: Uid, cur: Uid, all: set<Uid>,
                                  stack0: seq<Uid>, seen0: set<Uid>, cascade0: seq<Uid>)
      returns (stack: seq<Uid>, seen: set<Uid>, cascade: seq<Uid>)
      requires Cascading(m, excluded, root, stack0, seen0, cascade0) && cur in seen0
      requires forall v :: v in all ==> DependsOn(m.queue, v, cur)
      ensures Cascading(m, excluded, root, stack, seen, cascade) && seen0 <= seen
      ensures seen == seen0 ==> stack == stack0
      ensures forall u :: u in stack <==> u in stack0 || u in seen - seen0
      ensures forall v :: v in all && Open(m, excluded, v) ==> v in seen
    {
      stack, seen, cascade := stack0, seen0, cascade0;
      var todo := all;
      while todo != {}
        invariant todo <= all && seen0 <= seen
        invariant Cascading(m, excluded, root, stack, seen, cascade)
        invariant seen == seen0 ==> stack == stack0
        invariant forall u :: u in stack <==> u in stack0 || u in seen - seen0
        invariant forall v :: v in all - todo && Open(m, excluded, v) ==> v in seen
        decreases todo
      {
        var v :| v in todo;
        todo := todo - {v};
        if v !in excluded {
          if v !in seen && v !in m.successes && v !in m.failed {
            CascadeGrows(m, excluded, root, stack, seen, cascade, cur, v);
            seen := seen + {v};
            cascade := cascade + [v];
            stack := stack + [v];
          }
        }
      }
    }
  }

  /** The cascade found so far: distinct downstream jobs, all of them seen. */
  ghost predicate Cascading(m: Mem, excluded: set<Uid>, root: Uid, stack: seq<Uid>, seen: set<Uid>, cascade: seq<Uid>) {
    && seen == {root} + SetOf(cascade) && SetOf(stack) <= seen
    && NoRepeats(cascade) && root !in cascade
    && forall u :: u in cascade ==> Downstream(m, excluded, root, u) && DependsOnSome(m.queue, u)
  }

  lemma CascadeGrows(m: Mem, excluded: set<Uid>, root: Uid, stack: seq<Uid>, seen: set<Uid>, cascade: seq<Uid>,
                     cur: Uid, v: Uid)
    requires Cascading(m, excluded, root, stack, seen, cascade) && cur in seen && v !in seen
    requires DependsOn(m.queue, v, cur) && Open(m, excluded, v)
    ensures Cascading(m, excluded, root, stack + [v], seen + {v}, cascade + [v])
  {
    assert cur == root || cur in cascade;
    DownstreamExtends(m, excluded, root, cur, v);
    AppendOne(cascade, v);
    AppendOne(stack, v);
  }

  ghost predicate DependsOnSome(queue: seq<Row>, u: Uid) {
    exists r :: r in queue && r.Job? && r.uid == u
  }

  ghost function DependantUids(queue: seq<Row>): set<Uid> {
    set r | r in queue && r.Job? :: r.uid
  }

  lemma DependantsGrow(queue: seq<Row>, before: set<Uid>, after: set<Uid>, root: Uid)
    requires before <= after && root in before
    requires forall u :: u in after && u != root ==> DependsOnSome(queue, u)
    ensures after == before || DependantUids(queue) + {root} - after < DependantUids(queue) + {root} - before
  {
    if after <= before {
      assert after == before;
    } else {
      var u :| u in after && u !in before;
      assert u in DependantUids(queue) + {root} - before;
    }
  }
}
