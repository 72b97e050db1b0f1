/** Why a standstill always has an explanation: the scan, the reduction and the cycle detector
    agree on every queue. */
module Diagnosis {
  import opened Jobs
  import opened Graphs
  import opened State
  import opened Kahn
  import opened Standstill
  import opened Scheduler

  /** A complete scan of an idle, duplicate-free queue that found nothing to dispatch. */
  ghost predicate Fruitless(c: Context, order: seq<nat>, evals: seq<Evaluation>, visits: seq<Visit>, r: ScheduleResult)
  {
    && c.m.queue != [] && DistinctUids(c.m.queue) && c.m.inFlight == {} && c.inFlight == {}
    && |evals| == |c.m.queue| && (forall k :: 0 <= k < |order| ==> order[k] < |c.m.queue|)
    && (forall i :: 0 <= i < |c.m.queue| ==> i in order)
    && Visited(c, order, evals, visits) && Chosen(visits, r) && Reports(c, visits, r.facts)
    && Unmasked(c.m.queue, visits) && r.kind == NoneKind
  }

  /** Every row parses, and an admitted one waits for a uid of the queue and for no missing or
      failed one. */
  ghost predicate AllWait(c: Context) {
    forall row :: row in c.m.queue ==>
      row.Job? && (c.Admits(row.taskType) ==> WaitsInQueue(c, row.Deps()))
  }

  ghost predicate WaitsInQueue(c: Context, deps: seq<Uid>) {
    !c.Has(deps, Absent) && !c.Has(deps, Broken) && (c.Has(deps, Active) || c.Has(deps, Parked))
  }

  lemma FruitlessMeansAllWait(c: Context, order: seq<nat>, evals: seq<Evaluation>, visits: seq<Visit>,
                              r: ScheduleResult)
    requires Fruitless(c, order, evals, visits, r)
    requires r.facts.minWait == Infinite && !r.facts.attribution.HasCauses()
    ensures AllWait(c)
  {
    forall row | row in c.m.queue
      ensures row.Job? && (c.Admits(row.taskType) ==> WaitsInQueue(c, row.Deps()))
    {
      FruitlessRowWaits(c, order, evals, visits, r, row);
    }
  }

  lemma FruitlessRowWaits(c: Context, order: seq<nat>, evals: seq<Evaluation>, visits: seq<Visit>, r: ScheduleResult,
                          row: Row)
    requires Fruitless(c, order, evals, visits, r) && row in c.m.queue
    requires r.facts.minWait == Infinite && !r.facts.attribution.HasCauses()
    ensures row.Job? && (c.Admits(row.taskType) ==> WaitsInQueue(c, row.Deps()))
  {
    var i :| 0 <= i < |c.m.queue| && c.m.queue[i] == row;
    assert i in order;
    var k :| 0 <= k < |order| && order[k] == i;
    assert !Stopped(visits) && |visits| == |order|;
    VerdictOfFruitless(c, order, evals, visits, r, k);
    FirstBrokenMeans(c, row.Deps());
  }

  lemma VerdictOfFruitless(c: Context, order: seq<nat>, evals: seq<Evaluation>, visits: seq<Visit>, r: ScheduleResult,
                           k: nat)
    requires Fruitless(c, order, evals, visits, r) && k < |visits| == |order|
    requires r.facts.minWait == Infinite && !r.facts.attribution.HasCauses()
    ensures visits[k].verdict == SelectedOut || visits[k].verdict == Waits
    ensures c.m.queue[order[k]].Job?
  {
    var a := r.facts.attribution;
    assert c.m.queue[visits[k].index].uid !in a.malformed + a.unknown + a.missing + a.impossible;
    assert !visits[k].verdict.FailedBy? && visits[k].verdict != Runnable;
    assert MinimalWait(visits, r.facts.minWait);
  }

  lemma DepInQueue(c: Context, deps: seq<Uid>) returns (d: Uid)
    requires WaitsInQueue(c, deps) && c.inFlight == {}
    ensures d in deps && d in c.m.QueueUids()
    ensures c.StatusOf(d) == Active || c.StatusOf(d) == Parked
  {
    var i :| 0 <= i < |deps| && (c.StatusOf(deps[i]) == Active || c.StatusOf(deps[i]) == Parked);
    d := deps[i];
  }

  /** An admitted row of a fruitless scan is seen to wait. */
  lemma AdmittedRowIsReported(c: Context, order: seq<nat>, evals: seq<Evaluation>, visits: seq<Visit>,
                              r: ScheduleResult, row: Row)
    requires Fruitless(c, order, evals, visits, r)
    requires r.facts.minWait == Infinite && !r.facts.attribution.HasCauses()
    requires row in c.m.queue && row.Job? && c.Admits(row.taskType)
    ensures r.facts.waitingForDependency
  {
    var i :| 0 <= i < |c.m.queue| && c.m.queue[i] == row;
    assert i in order;
    var k :| 0 <= k < |order| && order[k] == i;
    assert !Stopped(visits) && |visits| == |order|;
    VerdictOfFruitless(c, order, evals, visits, r, k);
    assert visits[k].verdict == Waits;
  }

  lemma AllWaitMeansCycle(c: Context)
    requires AllWait(c) && !c.Selecting() && DistinctUids(c.m.queue) && c.m.queue != [] && c.inFlight == {}
    ensures HasCycle(DependencyGraph(c.m.queue, None))
  {
    var g := DependencyGraph(c.m.queue, None);
    GraphOfRows(c.m.queue, None);
    forall u | u in g ensures g[u] * g.Keys != {} {
      var row :| row in c.m.queue && row.Job? && row.uid == u;
      var d := DepInQueue(c, row.Deps());
      var other :| other in c.m.queue && other.uid == d;
      assert d in g[u] * g.Keys;
    }
    assert c.m.queue[0] in c.m.queue;
    var lead, w := NoSinkMeansCycle(g, g.Keys, c.m.queue[0].uid);
  }

  /** Without selection: the standstill is a wait on dependencies, and the queue's dependency
      graph has a cycle. */
  lemma PlainStandstillIsCycle(c: Context, order: seq<nat>, evals: seq<Evaluation>, visits: seq<Visit>,
                               r: ScheduleResult)
    requires Fruitless(c, order, evals, visits, r) && !c.Selecting()
    requires r.facts.minWait == Infinite && !r.facts.attribution.HasCauses()
    ensures r.facts.waitingForDependency && HasCycle(DependencyGraph(c.m.queue, None))
  {
    FruitlessMeansAllWait(c, order, evals, visits, r);
    AllWaitMeansCycle(c);
    assert c.m.queue[0] in c.m.queue;
    AdmittedRowIsReported(c, order, evals, visits, r, c.m.queue[0]);
  }

  /** With selection, every dependency of an allowed job is queued or ready ... */
  lemma AllWaitMeansKnown(c: Context)
    requires AllWait(c) && c.Selecting() && DistinctUids(c.m.queue) && c.m.inFlight == {} && c.inFlight == {}
    ensures AllKnown(c.m, c.sel.value)
  {
    var f := Facts(c.m.queue);
    FactsMatchGraph(c.m.queue);
    forall u, d | u in Allowed(c.sel.value, f) && d in f[u].deps ensures d in f || c.m.DependencyReady(d) {
      var row := FactHasRow(c.m.queue, u);
      var i :| 0 <= i < |row.Deps()| && row.Deps()[i] == d;
      assert c.StatusOf(d) != Absent && c.StatusOf(d) != Broken;
    }
  }

  /** ... and every unblocked job would wait for another unblocked one, so when nothing is stuck
      there is none. */
  lemma NothingUnblocked(c: Context, s: Standstill)
    requires AllWait(c) && c.Selecting() && DistinctUids(c.m.queue) && c.m.inFlight == {} && c.inFlight == {}
    requires Explains(c.m, c.sel.value, s) && s.stuck == {}
    ensures s.unblocked == {}
  {
    var sel := c.sel.value;
    var f := Facts(c.m.queue);
    var p := PendingAfter(c.m, f, Allowed(sel, f), Deferred(sel, f));
    FactsMatchGraph(c.m.queue);
    forall u | u in s.unblocked ensures exists d :: d in p[u] && d in s.unblocked {
      var row := FactHasRow(c.m.queue, u);
      var d := DepInQueue(c, row.Deps());
      UnmetMembers(c.m, f[u].deps, Deferred(sel, f));
      assert d in f;
      if d in Deferred(sel, f) || Held(sel, f, d) {
        HeldByDep(sel, f, u, d);
      }
      assert d in p[u] && d in s.unblocked;
    }
    ReducedHasNoTrap(p, s.blocked + s.unblocked, s.unblocked);
  }

  /** With selection: either only exclusions stand in the way, or a cycle is reported. */
  lemma SelectiveStandstillIsExplained(c: Context, order: seq<nat>, evals: seq<Evaluation>, visits: seq<Visit>,
                                       r: ScheduleResult, s: Standstill)
    requires Fruitless(c, order, evals, visits, r) && c.Selecting()
    requires r.facts.minWait == Infinite && !r.facts.attribution.HasCauses()
    requires Explains(c.m, c.sel.value, s)
    ensures s.OnlyBlockedByExclusion() || s.cycles != []
    ensures !s.OnlyBlockedByExclusion() ==> r.facts.waitingForDependency
  {
    FruitlessMeansAllWait(c, order, evals, visits, r);
    if s.stuck != {} {
      AllWaitMeansKnown(c);
      StuckReportsCycle(c.m, c.sel.value, s);
    } else {
      NothingUnblocked(c, s);
    }
    if !s.OnlyBlockedByExclusion() {
      assert s.stuck + s.unblocked <= Allowed(c.sel.value, Facts(c.m.queue));
      var u :| u in s.stuck + s.unblocked;
      var row := FactHasRow(c.m.queue, u);
      AdmittedRowIsReported(c, order, evals, visits, r, row);
    }
  }
}
