/** Execution selection and the standstill partition: which queued jobs are deferred, blocked
    by a deferred one, still able to finish, or stuck. */
module Standstill {
  import opened Jobs
  import opened Graphs
  import opened State
  import opened Kahn

  /** A selection rule: a `Skip`, or any other rule object, which counts as an exclusion. */
  datatype Rule = Skip(matches: TaskType -> bool) | Exclude(matches: TaskType -> bool)

  datatype Selection = Selection(rules: seq<Rule>) {
    predicate IsActive() { rules != [] }

    predicate HasSkipRules() { exists i :: 0 <= i < |rules| && rules[i].Skip? }

    predicate IsSkipped(t: TaskType) {
      exists i :: 0 <= i < |rules| && rules[i].Skip? && rules[i].matches(t)
    }

    predicate IsExcluded(t: TaskType) {
      !IsSkipped(t) && exists i :: 0 <= i < |rules| && !rules[i].Skip? && rules[i].matches(t)
    }

    predicate Allows(t: TaskType) { !IsSkipped(t) && !IsExcluded(t) }
  }

  /** A rule of the selection names this task type. */
  ghost predicate Named(sel: Option<Selection>, t: TaskType) {
    sel.Some? && exists i :: 0 <= i < |sel.value.rules| && sel.value.rules[i].matches(t)
  }

  /** A skip outranks an exclusion; a task type runs exactly if no rule of either kind names it. */
  lemma RulesDecide(sel: Selection, t: TaskType)
    ensures sel.IsActive() <==> |sel.rules| > 0
    ensures sel.Allows(t) <==> !Named(Some(sel), t)
    ensures sel.IsSkipped(t) <==> exists m :: Skip(m) in sel.rules && m(t)
    ensures sel.IsExcluded(t) <==> Named(Some(sel), t) && !sel.IsSkipped(t)
    ensures sel.HasSkipRules() <==> exists m :: Skip(m) in sel.rules
  {
    if i :| 0 <= i < |sel.rules| && sel.rules[i].Skip? && sel.rules[i].matches(t) {
      assert Skip(sel.rules[i].matches) in sel.rules;
    }
    if i :| 0 <= i < |sel.rules| && sel.rules[i].Skip? {
      assert Skip(sel.rules[i].matches) in sel.rules;
    }
  }

  datatype Fact = Fact(taskType: TaskType, deps: seq<Uid>)

  /** What the rows say, by uid; on a repeated uid the later row wins. */
  function Facts(queue: seq<Row>): map<Uid, Fact> {
    if queue == [] then map[]
    else
      var rest, row := Facts(queue[..|queue| - 1]), queue[|queue| - 1];
      if row.Job? then rest[row.uid := Fact(row.taskType, row.Deps())] else rest
  }

  lemma {:induction false} FactsMatchGraph(queue: seq<Row>)
    ensures Facts(queue).Keys == DependencyGraph(queue, None).Keys <= UidSet(queue)
    ensures forall u :: u in Facts(queue) ==> DependencyGraph(queue, None)[u] == SetOf(Facts(queue)[u].deps)
    ensures (forall r :: r in queue ==> r.Job?) ==> Facts(queue).Keys == UidSet(queue)
  {
    if queue != [] {
      var front, row := queue[..|queue| - 1], queue[|queue| - 1];
      FactsMatchGraph(front);
      assert queue == front + [row];
      UidSetAppend(front, [row]);
      assert UidSet([row]) == {row.uid} by {
        assert row in [row];
      }
    }
  }

  lemma FactsOfRow(queue: seq<Row>, r: Row)
    requires DistinctUids(queue) && r in queue && r.Job?
    ensures r.uid in Facts(queue) && Facts(queue)[r.uid] == Fact(r.taskType, r.Deps())
  {
    var front, row := queue[..|queue| - 1], queue[|queue| - 1];
    assert queue == front + [row];
    if r != row {
      var i :| 0 <= i < |front| && front[i] == r;
      assert queue[i].uid != queue[|queue| - 1].uid;
      FactsOfRow(front, r);
    }
  }

  lemma FactHasRow(queue: seq<Row>, u: Uid) returns (r: Row)
    requires u in Facts(queue)
    ensures r in queue && r.Job? && r.uid == u && Facts(queue)[u] == Fact(r.taskType, r.Deps())
  {
    var front, row := queue[..|queue| - 1], queue[|queue| - 1];
    assert queue == front + [row];
    if row.Job? && row.uid == u {
      r := row;
    } else {
      r := FactHasRow(front, u);
    }
  }

  // ---- the reference notions ----

  function Deferred(sel: Selection, f: map<Uid, Fact>): set<Uid> {
    set u | u in f && !sel.Allows(f[u].taskType)
  }

  function Allowed(sel: Selection, f: map<Uid, Fact>): set<Uid> {
    f.Keys - Deferred(sel, f)
  }

  /** A parseable job is deferred exactly if a rule names its task type, and allowed otherwise. */
  lemma DeferredMeans(sel: Selection, f: map<Uid, Fact>, u: Uid)
    ensures u in Deferred(sel, f) <==> u in f && Named(Some(sel), f[u].taskType)
    ensures u in Allowed(sel, f) <==> u in f && !Named(Some(sel), f[u].taskType)
  {
    if u in f {
      RulesDecide(sel, f[u].taskType);
    }
  }

  /** The dependencies of the allowed jobs outside the satisfied wavefront: `front` together
      with everything ready in `m`. */
  function PendingAfter(m: Mem, f: map<Uid, Fact>, allowed: set<Uid>, front: set<Uid>): Pending {
    map u | u in f && u in allowed :: Unmet(m, f[u].deps, front)
  }

  function Unmet(m: Mem, deps: seq<Uid>, front: set<Uid>): seq<Uid> {
    if deps == [] then []
    else (if deps[0] in front || m.DependencyReady(deps[0]) then [] else [deps[0]]) + Unmet(m, deps[1..], front)
  }

  lemma UnmetMembers(m: Mem, deps: seq<Uid>, front: set<Uid>)
    ensures forall d :: d in Unmet(m, deps, front) <==> d in deps && d !in front && !m.DependencyReady(d)
  {
    if deps != [] {
      UnmetMembers(m, deps[1..], front);
      assert deps == [deps[0]] + deps[1..];
    }
  }

  /** Dependencies followed from allowed jobs only. */
  function AllowedGraph(f: map<Uid, Fact>, allowed: set<Uid>): Graph {
    map u | u in f :: if u in allowed then SetOf(f[u].deps) else {}
  }

  /** `u` transitively depends on the deferred job `root` through allowed jobs. */
  ghost predicate HeldBy(sel: Selection, f: map<Uid, Fact>, u: Uid, root: Uid) {
    && u in Allowed(sel, f) && root in Deferred(sel, f)
    && Reaches(AllowedGraph(f, Allowed(sel, f)), u, root)
  }

  ghost predicate Held(sel: Selection, f: map<Uid, Fact>, u: Uid) {
    exists root :: HeldBy(sel, f, u, root)
  }

  /** A chain of dependencies from `u` through allowed jobs to the deferred job `root`. */
  ghost predicate Chain(sel: Selection, f: map<Uid, Fact>, w: seq<Uid>, u: Uid, root: Uid) {
    && |w| >= 2 && w[0] == u && w[|w| - 1] == root && root in f && Named(Some(sel), f[root].taskType)
    && forall i :: 0 <= i < |w| - 1 ==> w[i] in f && !Named(Some(sel), f[w[i]].taskType) && w[i + 1] in f[w[i]].deps
  }

  /** So a job is held by a deferred one exactly if such a chain leads there. */
  lemma HeldMeans(sel: Selection, f: map<Uid, Fact>, u: Uid, root: Uid)
    ensures HeldBy(sel, f, u, root) <==> exists w :: Chain(sel, f, w, u, root)
  {
    var g := AllowedGraph(f, Allowed(sel, f));
    forall v ensures v in Deferred(sel, f) <==> v in f && Named(Some(sel), f[v].taskType)
      ensures v in Allowed(sel, f) <==> v in f && !Named(Some(sel), f[v].taskType)
    {
      DeferredMeans(sel, f, v);
    }
    if HeldBy(sel, f, u, root) {
      var w :| Walk(g, w) && w[0] == u && w[|w| - 1] == root;
      assert |w| >= 2;
      forall i | 0 <= i < |w| - 1 ensures w[i] in Allowed(sel, f) && w[i + 1] in f[w[i]].deps {
        assert w[i + 1] in g[w[i]];
      }
      assert Chain(sel, f, w, u, root);
    }
    if w :| Chain(sel, f, w, u, root) {
      assert Walk(g, w);
    }
  }

  datatype Standstill = Standstill(
    excluded: set<Uid>, blocked: set<Uid>, unblocked: set<Uid>, stuck: set<Uid>,
    cycles: seq<Uid>, blockedBy: map<Uid, Uid>)
  {
    predicate OnlyBlockedByExclusion() { stuck == {} && unblocked == {} }
  }

  /** The partition means what it says: blocked and unblocked jobs make up the least fixpoint
      of "every dependency is deferred, ready or reduced", and the blocked ones are those that
      transitively depend on a deferred job. */
  ghost predicate Explains(m: Mem, sel: Selection, s: Standstill) {
    var f := Facts(m.queue);
    var allowed := Allowed(sel, f);
    && s.excluded == (set u | u in f && sel.IsExcluded(f[u].taskType))
    && LeastFixpoint(PendingAfter(m, f, allowed, Deferred(sel, f)), s.blocked + s.unblocked)
    && s.stuck == allowed - (s.blocked + s.unblocked)
    && (forall u :: u in s.blocked ==> Held(sel, f, u))
    && (forall u :: u in s.unblocked ==> !Held(sel, f, u))
    && s.blockedBy.Keys == s.blocked && (forall u :: u in s.blocked ==> HeldBy(sel, f, u, s.blockedBy[u]))
    && (forall u :: u in s.cycles ==> OnCycle(DependencyGraph(m.queue, Some(s.stuck)), u))
    && (s.cycles != [] <==> s.stuck != {} && HasCycle(DependencyGraph(m.queue, Some(s.stuck))))
  }

  /** Explaining a memory pins every set of the answer; only the order and repeats of the
      cycle listing and the choice of roots are left open. */
  lemma ExplanationUnique(m: Mem, sel: Selection, a: Standstill, b: Standstill)
    requires Explains(m, sel, a) && Explains(m, sel, b)
    ensures a.excluded == b.excluded && a.blocked == b.blocked && a.unblocked == b.unblocked && a.stuck == b.stuck
    ensures a.cycles == [] <==> b.cycles == []
  {
    assert a.blocked + a.unblocked == b.blocked + b.unblocked;
    SplitByHolding(sel, Facts(m.queue), a.blocked, a.unblocked, b.blocked, b.unblocked);
  }

  /** Two ways of cutting one set into held and other jobs are the same. */
  lemma SplitByHolding(sel: Selection, f: map<Uid, Fact>, held: set<Uid>, free: set<Uid>, held': set<Uid>,
                       free': set<Uid>)
    requires held + free == held' + free'
    requires forall u :: u in held + held' ==> Held(sel, f, u)
    requires forall u :: u in free + free' ==> !Held(sel, f, u)
    ensures held == held' && free == free'
  {
    assert forall u :: u in held <==> u in held + free && Held(sel, f, u);
    assert forall u :: u in held' <==> u in held' + free' && Held(sel, f, u);
  }

  // ---- consequences ----

  /** Deferred, blocked, unblocked and stuck partition the parseable queue. */
  lemma PartitionCovers(m: Mem, sel: Selection, s: Standstill)
    requires Explains(m, sel, s)
    ensures Deferred(sel, Facts(m.queue)) + s.blocked + s.unblocked + s.stuck == Facts(m.queue).Keys
    ensures Deferred(sel, Facts(m.queue)) !! s.blocked !! s.unblocked !! s.stuck
  {
  }

  /** Unblocked is the least fixpoint with the deferred jobs taken out of the wavefront. */
  lemma UnblockedIsOwnFixpoint(m: Mem, sel: Selection, s: Standstill)
    requires Explains(m, sel, s)
    ensures LeastFixpoint(PendingAfter(m, Facts(m.queue), Allowed(sel, Facts(m.queue)), {}), s.unblocked)
  {
    var q := PendingAfter(m, Facts(m.queue), Allowed(sel, Facts(m.queue)), {});
    UnblockedIsClosed(m, sel, s);
    forall t | Closed(q, t) ensures s.unblocked <= t {
      UnblockedIsLeast(m, sel, s, t);
    }
  }

  lemma UnblockedIsClosed(m: Mem, sel: Selection, s: Standstill)
    requires Explains(m, sel, s)
    ensures Closed(PendingAfter(m, Facts(m.queue), Allowed(sel, Facts(m.queue)), {}), s.unblocked)
  {
    var f := Facts(m.queue);
    var allowed, deferred := Allowed(sel, f), Deferred(sel, f);
    var p, q := PendingAfter(m, f, allowed, deferred), PendingAfter(m, f, allowed, {});
    forall u | u in q && (forall d :: d in q[u] ==> d in s.unblocked) ensures u in s.unblocked {
      UnmetMembers(m, f[u].deps, {});
      UnmetMembers(m, f[u].deps, deferred);
      assert forall d :: d in p[u] ==> d in s.blocked + s.unblocked;
      if Held(sel, f, u) {
        HeldThroughDep(m, sel, u);
      }
    }
  }

  lemma UnblockedIsLeast(m: Mem, sel: Selection, s: Standstill, t: set<Uid>)
    requires Explains(m, sel, s)
    requires Closed(PendingAfter(m, Facts(m.queue), Allowed(sel, Facts(m.queue)), {}), t)
    ensures s.unblocked <= t
  {
    var f := Facts(m.queue);
    var allowed, deferred := Allowed(sel, f), Deferred(sel, f);
    var p, q := PendingAfter(m, f, allowed, deferred), PendingAfter(m, f, allowed, {});
    var held := set u | u in allowed && Held(sel, f, u);
    forall u | u in p && (forall d :: d in p[u] ==> d in held + t) ensures u in held + t {
      UnmetMembers(m, f[u].deps, {});
      UnmetMembers(m, f[u].deps, deferred);
      if d :| d in f[u].deps && (d in deferred || d in held) {
        HeldByDep(sel, f, u, d);
      } else {
        assert forall d :: d in q[u] ==> d in t;
      }
    }
    assert Closed(p, held + t);
  }

  /** A held job has a dependency that is deferred or held itself, and is not ready. */
  lemma HeldThroughDep(m: Mem, sel: Selection, u: Uid)
    requires Held(sel, Facts(m.queue), u)
    ensures exists d :: (d in Facts(m.queue)[u].deps && !m.DependencyReady(d) &&
                         (d in Deferred(sel, Facts(m.queue)) || Held(sel, Facts(m.queue), d)))
  {
    var f := Facts(m.queue);
    var g := AllowedGraph(f, Allowed(sel, f));
    var root :| HeldBy(sel, f, u, root);
    var w :| Walk(g, w) && w[0] == u && w[|w| - 1] == root;
    assert Walk(g, w[1..]) && w[1] in f[u].deps;
    assert Reaches(g, w[1], root);
    assert w[1] in Deferred(sel, f) || HeldBy(sel, f, w[1], root);
    FactsMatchGraph(m.queue);
  }

  lemma HeldByDep(sel: Selection, f: map<Uid, Fact>, u: Uid, d: Uid)
    requires u in Allowed(sel, f) && d in f[u].deps
    requires d in Deferred(sel, f) || Held(sel, f, d)
    ensures Held(sel, f, u)
    ensures d in Deferred(sel, f) ==> HeldBy(sel, f, u, d)
    ensures forall root :: HeldBy(sel, f, d, root) ==> HeldBy(sel, f, u, root)
  {
    var g := AllowedGraph(f, Allowed(sel, f));
    ReachesStep(g, u, d);
    forall root | HeldBy(sel, f, d, root) ensures HeldBy(sel, f, u, root) {
      ReachesTransitive(g, u, d, root);
    }
    if d in Deferred(sel, f) {
      assert HeldBy(sel, f, u, d);
    } else {
      var root :| HeldBy(sel, f, d, root);
    }
  }

  /** The stuck jobs are exactly those that can follow pending dependencies to a uid that is
      neither queued and allowed, nor deferred, nor ready, or into a cycle. */
  lemma StuckIsHopeless(m: Mem, sel: Selection, s: Standstill, u: Uid)
    requires Explains(m, sel, s) && u in Allowed(sel, Facts(m.queue))
    ensures u in s.stuck <==>
      Hopeless(PendingAfter(m, Facts(m.queue), Allowed(sel, Facts(m.queue)), Deferred(sel, Facts(m.queue))), u)
  {
    var f := Facts(m.queue);
    LeftoverIsHopeless(PendingAfter(m, f, Allowed(sel, f), Deferred(sel, f)), s.blocked + s.unblocked, u);
  }

  /** Every dependency of an allowed job is queued (and parseable), or ready. */
  ghost predicate AllKnown(m: Mem, sel: Selection) {
    var f := Facts(m.queue);
    forall u, d :: u in Allowed(sel, f) && d in f[u].deps ==> d in f || m.DependencyReady(d)
  }

  /** With every dependency known, being stuck always shows up as a reported cycle. */
  lemma StuckReportsCycle(m: Mem, sel: Selection, s: Standstill)
    requires Explains(m, sel, s) && AllKnown(m, sel) && s.stuck != {}
    ensures s.cycles != []
  {
    LeftoverIsDetected(m, sel, s.blocked + s.unblocked);
  }

  lemma PendingIsKnown(m: Mem, sel: Selection)
    requires AllKnown(m, sel)
    ensures var p := PendingAfter(m, Facts(m.queue), Allowed(sel, Facts(m.queue)), Deferred(sel, Facts(m.queue)));
      p.Keys == Allowed(sel, Facts(m.queue)) && forall u, d :: u in p && d in p[u] ==> d in p
  {
    var f := Facts(m.queue);
    var allowed, deferred := Allowed(sel, f), Deferred(sel, f);
    var p := PendingAfter(m, f, allowed, deferred);
    forall u, d | u in p && d in p[u] ensures d in p {
      UnmetMembers(m, f[u].deps, deferred);
    }
  }

  lemma LeftoverIsDetected(m: Mem, sel: Selection, reduced: set<Uid>)
    requires AllKnown(m, sel) && reduced != Allowed(sel, Facts(m.queue))
    requires var f := Facts(m.queue); LeastFixpoint(PendingAfter(m, f, Allowed(sel, f), Deferred(sel, f)), reduced)
    ensures HasCycle(DependencyGraph(m.queue, Some(Allowed(sel, Facts(m.queue)) - reduced)))
  {
    var allowed := Allowed(sel, Facts(m.queue));
    var p := PendingAfter(m, Facts(m.queue), allowed, Deferred(sel, Facts(m.queue)));
    PendingIsKnown(m, sel);
    var w := LeftoverHasCycle(p, reduced);
    assert p.Keys - reduced == allowed - reduced;
    PendingWalkIsDetected(m, sel, p, allowed - reduced, w);
    assert ClosedWalk(DependencyGraph(m.queue, Some(allowed - reduced)), w);
  }

  /** A walk along pending dependencies is a walk of the graph the cycle detector searches. */
  lemma PendingWalkIsDetected(m: Mem, sel: Selection, p: Pending, stuck: set<Uid>, w: seq<Uid>)
    requires p == PendingAfter(m, Facts(m.queue), Allowed(sel, Facts(m.queue)), Deferred(sel, Facts(m.queue)))
    requires Walk(Restrict(PendingGraph(p), stuck), w)
    ensures Walk(DependencyGraph(m.queue, Some(stuck)), w)
  {
    var f := Facts(m.queue);
    GraphRestricts(m.queue, stuck);
    FactsMatchGraph(m.queue);
    forall i | 0 <= i < |w| - 1 ensures w[i + 1] in SetOf(f[w[i]].deps) {
      UnmetMembers(m, f[w[i]].deps, Deferred(sel, f));
    }
  }

  // ---- the computation ----

  /** `None` when a malformed row leaves no trustworthy topology; otherwise the explanation. */
  method Partition(state: PipelineState, sel: Selection) returns (r: Option<Standstill>)
    requires state.Valid()
    ensures r.None? <==> !sel.IsActive() || exists row :: row in state.queue && row.Malformed?
    ensures r.Some? ==> Explains(state.View(), sel, r.value)
  {
    if !sel.IsActive() {
      return None;
    }
    var facts := ReadFacts(state.queue);
    if facts.None? {
      return None;
    }
    var f := facts.value;
    var deferred := set u | u in f && !sel.Allows(f[u].taskType);
    var excluded := set u | u in f && sel.IsExcluded(f[u].taskType);
    var allowed := f.Keys - deferred;

    var pending := WhatIsPending(state, f, allowed, deferred);
    var reduced := Reduce(pending);
    var stuck := allowed - reduced;
    var cycles := StuckCycles(state, stuck);
    var rootOf := BackwardClosure(f, sel, allowed, deferred);
    var blocked := rootOf.Keys * reduced;
    var heldBy := map u | u in blocked :: rootOf[u];
    assert blocked + (reduced - blocked) == reduced;
    r := Some(Standstill(excluded, blocked, reduced - blocked, stuck, cycles, heldBy));
  }

  method StuckCycles(state: PipelineState, stuck: set<Uid>) returns (cycles: seq<Uid>)
    requires state.Valid()
    ensures forall u :: u in cycles ==> OnCycle(DependencyGraph(state.queue, Some(stuck)), u)
    ensures cycles != [] <==> stuck != {} && HasCycle(DependencyGraph(state.queue, Some(stuck)))
  {
    if stuck == {} {
      return [];
    }
    ghost var segments, states;
    cycles, segments, states := state.FindDependencyCycles(Some(stuck));
  }

  method ReadFacts(queue: seq<Row>) returns (f: Option<map<Uid, Fact>>)
    ensures f.None? <==> exists row :: row in queue && row.Malformed?
    ensures f.Some? ==> f.value == Facts(queue)
  {
    var facts: map<Uid, Fact> := map[];
    for i := 0 to |queue|
      invariant facts == Facts(queue[..i])
      invariant forall k :: 0 <= k < i ==> queue[k].Job?
    {
      assert queue[..i + 1][..i] == queue[..i];
      if queue[i].Malformed? {
        return None;
      }
      facts := facts[queue[i].uid := Fact(queue[i].taskType, queue[i].Deps())];
    }
    assert queue[..|queue|] == queue;
    f := Some(facts);
  }

  method WhatIsPending(state: PipelineState, f: map<Uid, Fact>, allowed: set<Uid>, deferred: set<Uid>)
    returns (pending: Pending)
    requires state.Valid() && allowed <= f.Keys
    ensures pending == PendingAfter(state.View(), f, allowed, deferred)
  {
    pending := map u | u in allowed :: Unmet(
      Mem(state.queue, state.inFlight, state.successes, state.failed, state.cursors, state.triggerSkipped), f[u].deps,
      deferred);
  }

  /** The allowed jobs that transitively depend on a deferred one, each with one such root,
      found by a worklist over reverse dependencies from the deferred jobs. */
  method BackwardClosure(f: map<Uid, Fact>, sel: Selection, allowed: set<Uid>, deferred: set<Uid>)
    returns (rootOf: map<Uid, Uid>)
    requires deferred == Deferred(sel, f) && allowed == Allowed(sel, f)
    ensures forall u :: u in rootOf ==> HeldBy(sel, f, u, rootOf[u])
    ensures forall u :: u in rootOf <==> Held(sel, f, u)
  {
    rootOf := map[];
    var stack := deferred;
    while stack != {}
      invariant Closing(sel, f, stack, rootOf)
      decreases allowed - rootOf.Keys, stack
    {
      var cur :| cur in stack;
      var root := if cur in rootOf then rootOf[cur] else cur;
      var found := Dependants(f, allowed, cur) - rootOf.Keys;
      ClosingStep(sel, f, stack, rootOf, cur);
      stack := (stack - {cur}) + found;
      rootOf := rootOf + map c | c in found :: root;
    }
    forall u | Held(sel, f, u) ensures u in rootOf {
      HeldIsClosed(sel, f, rootOf.Keys, u);
    }
  }

  ghost predicate Closing(sel: Selection, f: map<Uid, Fact>, stack: set<Uid>, rootOf: map<Uid, Uid>) {
    && stack <= Deferred(sel, f) + rootOf.Keys && rootOf.Keys <= Allowed(sel, f)
    && (forall u :: u in rootOf ==> HeldBy(sel, f, u, rootOf[u]))
    && BackClosed(f, Allowed(sel, f), (Deferred(sel, f) + rootOf.Keys) - stack, rootOf.Keys)
  }

  lemma ClosingStep(sel: Selection, f: map<Uid, Fact>, stack: set<Uid>, rootOf: map<Uid, Uid>, cur: Uid)
    requires Closing(sel, f, stack, rootOf) && cur in stack
    ensures var root := if cur in rootOf then rootOf[cur] else cur;
      var found := Dependants(f, Allowed(sel, f), cur) - rootOf.Keys;
      var next := rootOf + map c | c in found :: root;
      && Closing(sel, f, (stack - {cur}) + found, next) && next.Keys == rootOf.Keys + found
      && found <= Allowed(sel, f) && found !! rootOf.Keys && (found == {} ==> next == rootOf)
  {
    var root := if cur in rootOf then rootOf[cur] else cur;
    var found := Dependants(f, Allowed(sel, f), cur) - rootOf.Keys;
    var next := rootOf + map c | c in found :: root;
    forall c | c in found ensures HeldBy(sel, f, c, root) {
      HeldByDep(sel, f, c, cur);
    }
    forall u | u in (Deferred(sel, f) + next.Keys) - ((stack - {cur}) + found)
      ensures Dependants(f, Allowed(sel, f), u) <= next.Keys
    {
      assert u == cur || u in (Deferred(sel, f) + rootOf.Keys) - stack;
    }
  }

  lemma HeldIsClosed(sel: Selection, f: map<Uid, Fact>, s: set<Uid>, u: Uid)
    requires Held(sel, f, u) && BackClosed(f, Allowed(sel, f), Deferred(sel, f) + s, s)
    ensures u in s
  {
    var root :| HeldBy(sel, f, u, root);
    var w :| Walk(AllowedGraph(f, Allowed(sel, f)), w) && w[0] == u && w[|w| - 1] == root;
    HeldAlong(sel, f, w, s, 0);
  }

  function Dependants(f: map<Uid, Fact>, allowed: set<Uid>, u: Uid): set<Uid>
    requires allowed <= f.Keys
  {
    set c | c in allowed && u in f[c].deps
  }

  /** Every allowed dependant of a member of `from` is in `s`. */
  ghost predicate BackClosed(f: map<Uid, Fact>, allowed: set<Uid>, from: set<Uid>, s: set<Uid>)
    requires allowed <= f.Keys
  {
    forall u :: u in from ==> Dependants(f, allowed, u) <= s
  }

  lemma HeldAlong(sel: Selection, f: map<Uid, Fact>, w: seq<Uid>, s: set<Uid>, i: nat)
    requires Walk(AllowedGraph(f, Allowed(sel, f)), w) && i < |w|
    requires w[|w| - 1] in Deferred(sel, f)
    requires BackClosed(f, Allowed(sel, f), Deferred(sel, f) + s, s)
    ensures w[i] in Deferred(sel, f) + s
    decreases |w| - i
  {
    if i < |w| - 1 {
      HeldAlong(sel, f, w, s, i + 1);
      assert w[i] in Dependants(f, Allowed(sel, f), w[i + 1]);
    }
  }
}
