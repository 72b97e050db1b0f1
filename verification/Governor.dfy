/** Deadlock arbitration: which course a standstill calls for, and what carrying it out does. */
module Governor {
  import opened Jobs
  import opened Graphs
  import opened State
  import opened Disk
  import opened Standstill
  import opened Scheduler
  import opened Diagnosis
  import opened Mirror
  import opened Store
  import opened Recovery
  import opened GraceWindow

  // ---- the course ----

  datatype Cause =
    | MalformedRows | UnknownResources | MissingDependencies | ImpossibleAmounts | DependencyCycle
    | WaitWithoutCycle | Unclassified
  {
    /** A standstill the classification cannot explain. */
    predicate IsGap() { WaitWithoutCycle? || Unclassified? }
  }

  datatype Course = LetWait | Blocked | Blame(cause: Cause)

  function CauseOf(f: StandstillFacts, cyclic: bool): Cause {
    if f.attribution.malformed != [] then MalformedRows
    else if f.attribution.unknown != [] then UnknownResources
    else if f.attribution.missing != [] then MissingDependencies
    else if f.attribution.impossible != [] then ImpossibleAmounts
    else if f.waitingForDependency then if cyclic then DependencyCycle else WaitWithoutCycle
    else Unclassified
  }

  function CourseOf(f: StandstillFacts, selecting: bool, onlyBlocked: bool, cyclic: bool): Course {
    if selecting && !f.attribution.HasCauses() && onlyBlocked then Blocked
    else if f.minWait == Infinite || (f.waitingForDependency && cyclic) then Blame(CauseOf(f, cyclic))
    else LetWait
  }

  /** Without selection, a complete fruitless scan never leads to a gap. */
  lemma PlainScanLeavesNoGap(c: Context, order: seq<nat>, evals: seq<Evaluation>, visits: seq<Visit>, r: ScheduleResult)
    requires Fruitless(c, order, evals, visits, r) && !c.Selecting()
    ensures var course := CourseOf(r.facts, false, false, HasCycle(DependencyGraph(c.m.queue, None)));
      course.Blame? ==> !course.cause.IsGap()
  {
    if r.facts.minWait == Infinite && !r.facts.attribution.HasCauses() {
      PlainStandstillIsCycle(c, order, evals, visits, r);
    }
  }

  /** Nor with selection; and if rows are malformed, the malformed rows are blamed. */
  lemma SelectiveScanLeavesNoGap(c: Context, order: seq<nat>, evals: seq<Evaluation>, visits: seq<Visit>,
                                 r: ScheduleResult, s: Standstill)
    requires Fruitless(c, order, evals, visits, r) && c.Selecting() && Explains(c.m, c.sel.value, s)
    ensures var course := CourseOf(r.facts, true, s.OnlyBlockedByExclusion(), s.cycles != []);
      course.Blame? ==> !course.cause.IsGap()
  {
    if r.facts.minWait == Infinite && !r.facts.attribution.HasCauses() {
      SelectiveStandstillIsExplained(c, order, evals, visits, r, s);
    }
  }

  lemma MalformedScanBlamesRows(c: Context, order: seq<nat>, evals: seq<Evaluation>, visits: seq<Visit>,
                                r: ScheduleResult, selecting: bool)
    requires Fruitless(c, order, evals, visits, r) && exists row :: row in c.m.queue && row.Malformed?
    ensures CourseOf(r.facts, selecting, false, false) == Blame(MalformedRows)
  {
    var row :| row in c.m.queue && row.Malformed?;
    var i :| 0 <= i < |c.m.queue| && c.m.queue[i] == row;
    assert i in order;
    var k :| 0 <= k < |order| && order[k] == i;
    assert !Stopped(visits) && |visits| == |order|;
    assert visits[k].verdict == Unparseable && visits[k].index == i;
    assert row.uid in r.facts.attribution.malformed;
  }

  /** So, from what the arbiter knows after a complete fruitless scan of the same state, it never
      concludes a gap. */
  lemma FruitlessLeavesNoGap(c: Context, order: seq<nat>, evals: seq<Evaluation>, visits: seq<Visit>, r: ScheduleResult,
                             s: Option<Standstill>, cycle: set<Uid>)
    requires Fruitless(c, order, evals, visits, r) && Informed(c.m, c.sel, s, cycle)
    ensures var course := CourseOf(r.facts, Selecting(c.sel), OnlyBlocked(s), cycle != {});
      course.Blame? ==> !course.cause.IsGap()
  {
    if !Selecting(c.sel) {
      PlainScanLeavesNoGap(c, order, evals, visits, r);
    } else if s.Some? {
      assert s.value.cycles != [] ==> s.value.cycles[0] in cycle;
      SelectiveScanLeavesNoGap(c, order, evals, visits, r, s.value);
    } else {
      MalformedScanBlamesRows(c, order, evals, visits, r, true);
    }
  }

  /** Every blamed uid is queued. */
  ghost predicate Grounded(f: StandstillFacts, queued: set<Uid>) {
    var a := f.attribution;
    SetOf(a.malformed) + SetOf(a.unknown) + SetOf(a.missing) + SetOf(a.impossible) <= queued
  }

  lemma ReportsAreGrounded(c: Context, visits: seq<Visit>, f: StandstillFacts)
    requires forall k :: 0 <= k < |visits| ==> visits[k].index < |c.m.queue|
    requires Reports(c, visits, f)
    ensures Grounded(f, c.m.QueueUids())
  {
    forall v, uids, u | Lists(c.m.queue, visits, v, uids) && u in uids ensures u in c.m.QueueUids() {
      var k :| 0 <= k < |visits| && visits[k].verdict == v && c.m.queue[visits[k].index].uid == u;
      assert c.m.queue[visits[k].index] in c.m.queue;
    }
  }

  // ---- whom to condemn ----

  /** The rows to condemn; `None` condemns the whole queue. */
  function Split(queue: seq<Row>, target: Option<set<Uid>>, error: Meta): seq<(Uid, Meta)> {
    if queue == [] then []
    else
      var front, row := Split(queue[..|queue| - 1], target, error), queue[|queue| - 1];
      if target.None? || row.uid in target.value then front + [(row.uid, error)] else front
  }

  lemma SplitUids(queue: seq<Row>, target: Option<set<Uid>>, error: Meta)
    ensures BatchUids(Split(queue, target, error)) ==
      UidSet(queue) * (if target.None? then UidSet(queue) else target.value)
  {
    if queue != [] {
      var front, row := queue[..|queue| - 1], queue[|queue| - 1];
      SplitUids(front, target, error);
      assert queue == front + [row];
      UidSetAppend(front, [row]);
      UidsOfOne(row);
      BatchUidsAppend(Split(front, target, error), (row.uid, error));
    }
  }

  lemma BatchUidsAppend(batch: seq<(Uid, Meta)>, e: (Uid, Meta))
    ensures BatchUids(batch + [e]) == BatchUids(batch) + {e.0}
  {
    assert forall x :: x in batch + [e] <==> x in batch || x == e;
    assert e in batch + [e];
  }

  datatype ErrorMetas = ErrorMetas(malformed: Meta, resource: Meta, dependency: Meta, gap: Meta)

  function TargetOf(f: StandstillFacts, cause: Cause, cycle: set<Uid>): Option<set<Uid>> {
    match cause
    case MalformedRows => Some(SetOf(f.attribution.malformed))
    case UnknownResources => Some(SetOf(f.attribution.unknown))
    case MissingDependencies => Some(SetOf(f.attribution.missing))
    case ImpossibleAmounts => Some(SetOf(f.attribution.impossible))
    case DependencyCycle => Some(cycle)
    case WaitWithoutCycle => None
    case Unclassified => None
  }

  function ErrorOf(e: ErrorMetas, cause: Cause): Meta {
    match cause
    case MalformedRows => e.malformed
    case UnknownResources => e.resource
    case MissingDependencies => e.dependency
    case ImpossibleAmounts => e.resource
    case DependencyCycle => e.dependency
    case WaitWithoutCycle => e.gap
    case Unclassified => e.gap
  }

  /** Whom a standstill is blamed on, and under which record: those of the first list that names
      somebody; else the cycle, if the standstill is a wait and has one; else everybody. */
  ghost predicate BlamedOn(f: StandstillFacts, cycle: set<Uid>, queued: set<Uid>, e: ErrorMetas, who: set<Uid>,
                           error: Meta)
  {
    var a := f.attribution;
    if a.malformed != [] then who == SetOf(a.malformed) && error == e.malformed
    else if a.unknown != [] then who == SetOf(a.unknown) && error == e.resource
    else if a.missing != [] then who == SetOf(a.missing) && error == e.dependency
    else if a.impossible != [] then who == SetOf(a.impossible) && error == e.resource
    else if Unexplained(f, cycle) then who == queued && error == e.gap
    else who == cycle && error == e.dependency
  }

  /** Nothing the scan reports explains the standstill. */
  ghost predicate Unexplained(f: StandstillFacts, cycle: set<Uid>) {
    var a := f.attribution;
    && a.malformed == [] && a.unknown == [] && a.missing == [] && a.impossible == []
    && !(f.waitingForDependency && cycle != {})
  }

  lemma SomebodyIsMeant(f: StandstillFacts, cycle: set<Uid>, queued: set<Uid>, e: ErrorMetas)
    returns (who: set<Uid>, error: Meta)
    ensures BlamedOn(f, cycle, queued, e, who, error)
  {
    var a := f.attribution;
    who := if a.malformed != [] then SetOf(a.malformed)
           else if a.unknown != [] then SetOf(a.unknown)
           else if a.missing != [] then SetOf(a.missing)
           else if a.impossible != [] then SetOf(a.impossible)
           else if Unexplained(f, cycle) then queued else cycle;
    error := if a.malformed != [] then e.malformed
             else if a.unknown != [] then e.resource
             else if a.missing != [] then e.dependency
             else if a.impossible != [] then e.resource
             else if Unexplained(f, cycle) then e.gap else e.dependency;
  }

  /** The batch holds the queued ones of them, with that record. */
  lemma BatchIsBlamed(queue: seq<Row>, f: StandstillFacts, cycle: set<Uid>, e: ErrorMetas, who: set<Uid>, error: Meta)
    requires BlamedOn(f, cycle, UidSet(queue), e, who, error)
    ensures var cause := CauseOf(f, cycle != {});
      var batch := Split(queue, TargetOf(f, cause, cycle), ErrorOf(e, cause));
      BatchUids(batch) == UidSet(queue) * who && forall x :: x in batch ==> x.1 == error
  {
    var cause := CauseOf(f, cycle != {});
    SplitUids(queue, TargetOf(f, cause, cycle), ErrorOf(e, cause));
    SplitErrors(queue, TargetOf(f, cause, cycle), ErrorOf(e, cause));
  }

  lemma CausesMean(f: StandstillFacts, cycle: set<Uid>)
    ensures CauseOf(f, cycle != {}).IsGap() <==> Unexplained(f, cycle)
    ensures CauseOf(f, cycle != {}).MissingDependencies? <==>
      f.attribution.malformed == [] && f.attribution.unknown == [] && f.attribution.missing != []
  {
  }

  lemma {:induction false} SplitErrors(queue: seq<Row>, target: Option<set<Uid>>, error: Meta)
    ensures forall x :: x in Split(queue, target, error) ==> x.1 == error
  {
    if queue != [] {
      SplitErrors(queue[..|queue| - 1], target, error);
    }
  }

  /** The batch is in queue order, row by row. */
  lemma {:induction false} SplitReadsOff(queue: seq<Row>, target: Option<set<Uid>>, error: Meta)
    returns (positions: seq<nat>)
    ensures ReadOff(Names(queue), positions, UidsOf(Split(queue, target, error)))
    ensures forall i :: i in positions <==> 0 <= i < |queue| && (target.None? || queue[i].uid in target.value)
  {
    if queue == [] {
      positions := [];
    } else {
      var front, row := queue[..|queue| - 1], queue[|queue| - 1];
      positions := SplitReadsOff(front, target, error);
      assert Names(queue) == Names(front) + [row.uid];
      ReadOffMore(Names(front), row.uid, positions, UidsOf(Split(front, target, error)));
      if target.None? || row.uid in target.value {
        positions := positions + [|front|];
        assert UidsOf(Split(queue, target, error)) == UidsOf(Split(front, target, error)) + [row.uid];
      }
    }
  }

  /** A blamed cause always names somebody in a non-empty queue. */
  lemma SomebodyIsBlamed(queue: seq<Row>, f: StandstillFacts, cyclic: bool, cycle: set<Uid>, error: Meta)
    requires queue != [] && Grounded(f, UidSet(queue)) && cycle <= UidSet(queue) && (cyclic ==> cycle != {})
    ensures Split(queue, TargetOf(f, CauseOf(f, cyclic), cycle), error) != []
  {
    var target := TargetOf(f, CauseOf(f, cyclic), cycle);
    var a := f.attribution;
    SplitUids(queue, target, error);
    assert queue[0] in queue;
    if target.Some? {
      forall uids: seq<Uid> | uids != [] ensures SetOf(uids) != {} {
        assert uids[0] in SetOf(uids);
      }
      var u :| u in target.value;
      assert u in BatchUids(Split(queue, target, error));
    } else {
      assert queue[0].uid in BatchUids(Split(queue, target, error));
    }
  }

  // ---- what failing a batch does ----

  lemma BumpLength(queue: seq<Row>, u: Uid)
    ensures |Bump(queue, u)| == |queue|
  {
  }

  /** A sweep archives only what it is given; if it keeps nothing, all of it, and the queue
      shrinks by it. */
  lemma {:induction false} SweepMeans(s: Sweep, p: Policy, uids: seq<Uid>, f: Faults)
    ensures var t := SweepAll(s, p, uids, f);
      && t.w.disk.failed.Keys <= s.w.disk.failed.Keys + SetOf(uids)
      && (s.kept ==> t.kept) && |t.queue| <= |s.queue|
      && (!t.kept ==>
            && UidSet(t.queue) == UidSet(s.queue) - SetOf(uids)
            && t.w.disk.failed.Keys == s.w.disk.failed.Keys + SetOf(uids))
      && (!t.kept && SetOf(uids) * UidSet(s.queue) != {} ==> |t.queue| < |s.queue|)
  {
    if uids != [] {
      var front, u := uids[..|uids| - 1], uids[|uids| - 1];
      assert uids == front + [u];
      AppendOne(front, u);
      SweepMeans(s, p, front, f);
      SweepOneMeans(SweepAll(s, p, front, f), p, u, f);
    }
  }

  lemma SweepOneMeans(s: Sweep, p: Policy, u: Uid, f: Faults)
    ensures var t := SweepOne(s, p, u, f);
      && t.w.disk.failed.Keys <= s.w.disk.failed.Keys + {u}
      && (s.kept ==> t.kept) && |t.queue| <= |s.queue|
      && (!t.kept ==> UidSet(t.queue) == UidSet(s.queue) - {u} && t.w.disk.failed.Keys == s.w.disk.failed.Keys + {u})
      && (!t.kept && u in UidSet(s.queue) ==> |t.queue| < |s.queue|)
  {
    var bumped := Bump(s.queue, u);
    BumpLength(s.queue, u);
    BumpUids(s.queue, u);
    WithoutUids(bumped, {u});
    WithoutShrinks(bumped, {u});
    if u in UidSet(s.queue) {
      assert u in UidSet(bumped) * {u};
    }
  }

  lemma BatchMeans(w: World, p: Policy, record: Meta -> Meta, batch: seq<(Uid, Meta)>, f: Faults)
    ensures var (after, exit) := FailBatch(w, p, record, batch, f);
      && after.disk.failed.Keys <= w.disk.failed.Keys + BatchUids(batch)
      && (exit == Returned ==> after.mem.QueueUids() == w.mem.QueueUids() - BatchUids(batch))
      && (exit == Returned ==> after.disk.failed.Keys == w.disk.failed.Keys + BatchUids(batch))
      && (exit == Returned && BatchUids(batch) * w.mem.QueueUids() != {} ==> |after.mem.queue| < |w.mem.queue|)
  {
    var gone := BatchUids(batch);
    if !f.batch {
      FailAllKeys(w.disk.failed, batch);
      WithoutUids(w.mem.queue, gone);
      WithoutShrinks(w.mem.queue, gone);
      RecordAllKeys(w.mem.ReplaceQueue(Without(w.mem.queue, gone)), record, batch);
    } else {
      UidsOfBatch(batch);
      SweepMeans(Sweep(w, w.mem.queue, false), p, UidsOf(batch), f);
    }
  }

  /** A bulk failure archives only named jobs the selection lets run; when it returns, all of
      those are archived and off the queue, which is shorter if there was one. */
  lemma BulkMeans(w: World, p: Policy, sel: Option<Selection>, batch: seq<(Uid, Meta)>, f: Faults)
    requires BatchUids(batch) <= w.mem.QueueUids()
    ensures var (after, exit) := FailBulk(w, p, sel, batch, f);
      var wanted := BatchUids(batch) - ExcludedNow(sel, w.mem.queue);
      && after.disk.failed.Keys <= w.disk.failed.Keys + wanted
      && (exit == Returned ==>
            && after.mem.QueueUids() == w.mem.QueueUids() - wanted
            && after.disk.failed.Keys == w.disk.failed.Keys + wanted)
      && (exit == Returned && wanted != {} ==> |after.mem.queue| < |w.mem.queue|)
  {
    var excluded := ExcludedNow(sel, w.mem.queue);
    var wanted := NotIn(batch, excluded);
    NotInUids(batch, excluded);
    NormalizeAllUids(p, wanted);
    BatchMeans(w, p, x => x, NormalizeAll(p, wanted), f);
    var named := BatchUids(batch) - excluded;
    assert named <= w.mem.QueueUids();
    if named != {} {
      var u :| u in named;
      assert u in named * w.mem.QueueUids();
    }
  }

  /** A committed bulk failure under one record writes that record, normalised, for each of them. */
  lemma BulkRecords(w: World, p: Policy, sel: Option<Selection>, batch: seq<(Uid, Meta)>, error: Meta, f: Faults)
    requires !f.batch && forall x :: x in batch ==> x.1 == error
    ensures var after := FailBulk(w, p, sel, batch, f).0;
      forall u :: u in BatchUids(batch) - ExcludedNow(sel, w.mem.queue) ==>
        u in after.disk.failed && after.disk.failed[u] == p.normalize(error)
  {
    var excluded := ExcludedNow(sel, w.mem.queue);
    var wanted := NotIn(batch, excluded);
    NotInUids(batch, excluded);
    NormalizeAllUids(p, wanted);
    var positions := NotInReadsOff(batch, excluded);
    assert forall x :: x in wanted ==> x in batch;
    OneRecord(w.disk.failed, NormalizeAll(p, wanted), p.normalize(error));
    if wanted == [] {
      assert BatchUids(wanted) == {};
    }
  }

  lemma {:induction false} OneRecord(failed: map<Uid, Meta>, batch: seq<(Uid, Meta)>, m: Meta)
    requires forall x :: x in batch ==> x.1 == m
    ensures forall u :: u in BatchUids(batch) ==> u in FailAll(failed, batch) && FailAll(failed, batch)[u] == m
  {
    if batch != [] {
      OneRecord(failed, batch[..|batch| - 1], m);
      assert batch == batch[..|batch| - 1] + [batch[|batch| - 1]];
    }
  }

  lemma WantedUids(batch: seq<(Uid, Meta)>, excluded: set<Uid>)
    ensures UidsOf(NotIn(batch, excluded)) == [] <==> BatchUids(batch) - excluded == {}
  {
    NotInUids(batch, excluded);
    UidsOfBatch(NotIn(batch, excluded));
    var uids := UidsOf(NotIn(batch, excluded));
    if uids != [] {
      assert uids[0] in SetOf(uids);
    }
  }

  // ---- arbitration ----

  datatype Action = Resolved | SelectionBlocked | GraceWaiting | GapRetrying | NoAction

  datatype Decision = Decision(action: Action, shouldTerminate: bool, failed: seq<Uid>, standstill: Option<Standstill>)

  const NO_DECISION := Decision(NoAction, false, [], None)

  predicate Selecting(sel: Option<Selection>) { sel.Some? && sel.value.IsActive() }

  predicate OnlyBlocked(s: Option<Standstill>) { s.Some? && s.value.OnlyBlockedByExclusion() }

  /** What the arbiter knows: the partition when there is a selection, the cycle detector's
      answer otherwise. */
  ghost predicate Informed(m: Mem, sel: Option<Selection>, s: Option<Standstill>, cycle: set<Uid>) {
    if Selecting(sel)
    then Partitioned(m, sel.value, s) && cycle == (if s.Some? then SetOf(s.value.cycles) else {})
    else s == None && (cycle != {} <==> HasCycle(DependencyGraph(m.queue, None)))
           && forall u :: u in cycle ==> OnCycle(DependencyGraph(m.queue, None), u)
  }

  ghost predicate Partitioned(m: Mem, sel: Selection, s: Option<Standstill>) {
    && (s.None? <==> !sel.IsActive() || exists row :: row in m.queue && row.Malformed?)
    && (s.Some? ==> Explains(m, sel, s.value))
  }

  /** The detector names queued jobs only. */
  lemma CyclesAreQueued(m: Mem, sel: Option<Selection>, s: Option<Standstill>, cycle: set<Uid>)
    requires Informed(m, sel, s, cycle)
    ensures cycle <= m.QueueUids()
  {
    forall u | u in cycle ensures u in m.QueueUids() {
      if Selecting(sel) {
        assert OnCycle(DependencyGraph(m.queue, Some(s.value.stuck)), u);
        GraphOfRows(m.queue, Some(s.value.stuck));
      } else {
        assert OnCycle(DependencyGraph(m.queue, None), u);
        GraphOfRows(m.queue, None);
      }
    }
  }

  /** What condemning `batch` out of `w` amounts to. */
  ghost predicate Condemned(w: World, p: Policy, sel: Option<Selection>, errors: ErrorMetas, batch: seq<(Uid, Meta)>,
                            f: Faults, g: Faults, after: World, exit: Exit, d: Decision)
  {
    var wanted := UidsOf(NotIn(batch, ExcludedNow(sel, w.mem.queue)));
    var (w1, e1) := FailBulk(w, p, sel, batch, f);
    if e1 != Returned then after == w1 && exit == e1
    else if wanted != [] || !Selecting(sel) then
      && after == w1 && exit == Returned
      && d == Decision(Resolved, wanted != [] && w1.mem.queue == [], wanted, None)
    else Converged(w1, p, sel, errors, g, after, exit, d)
  }

  /** Nothing was archived under a selection: report the block, condemn what is stuck, or stop. */
  ghost predicate Converged(w: World, p: Policy, sel: Option<Selection>, errors: ErrorMetas, g: Faults,
                            after: World, exit: Exit, d: Decision)
    requires Selecting(sel)
  {
    exists s: Option<Standstill>, stuck: seq<Uid> ::
      && Partitioned(w.mem, sel.value, s)
      && ConvergedOn(w, p, sel, errors, g, s, stuck, after, exit, d)
  }

  ghost predicate ConvergedOn(w: World, p: Policy, sel: Option<Selection>, errors: ErrorMetas, g: Faults,
                              s: Option<Standstill>, stuck: seq<Uid>, after: World, exit: Exit, d: Decision)
  {
    if OnlyBlocked(s) then
      after == w && exit == Returned && d == Decision(SelectionBlocked, true, [], s)
    else if s.Some? && s.value.stuck != {} then
      && SetOf(stuck) == s.value.stuck
      && var batch := Blamed(stuck, errors.gap);
         var wanted := UidsOf(NotIn(batch, ExcludedNow(sel, w.mem.queue)));
         var (w1, e1) := FailBulk(w, p, sel, batch, g);
         && after == w1 && exit == e1
         && (e1 == Returned ==> d == if wanted != [] then Decision(Resolved, w1.mem.queue == [], wanted, None)
                                     else Decision(Resolved, true, [], None))
    else after == w && exit == Returned && d == Decision(Resolved, true, [], None)
  }

  function Blamed(uids: seq<Uid>, error: Meta): seq<(Uid, Meta)> {
    seq(|uids|, i requires 0 <= i < |uids| => (uids[i], error))
  }

  lemma BlamedUids(uids: seq<Uid>, error: Meta)
    ensures BatchUids(Blamed(uids, error)) == SetOf(uids)
  {
    var b := Blamed(uids, error);
    forall u | u in SetOf(uids) ensures u in BatchUids(b) {
      var i :| 0 <= i < |uids| && uids[i] == u;
      assert b[i] in b;
    }
  }

  /** Whenever condemning ends as resolved, the queue got shorter or the run ends. */
  lemma CondemningMakesProgress(w: World, p: Policy, sel: Option<Selection>, errors: ErrorMetas,
                                batch: seq<(Uid, Meta)>, f: Faults, g: Faults, after: World, exit: Exit, d: Decision)
    requires Condemned(w, p, sel, errors, batch, f, g, after, exit, d)
    requires BatchUids(batch) <= w.mem.QueueUids() && batch != []
    requires exit == Returned && d.action == Resolved
    ensures d.shouldTerminate || |after.mem.queue| < |w.mem.queue|
  {
    var excluded := ExcludedNow(sel, w.mem.queue);
    var wanted := UidsOf(NotIn(batch, excluded));
    WantedUids(batch, excluded);
    BulkMeans(w, p, sel, batch, f);
    var (w1, e1) := FailBulk(w, p, sel, batch, f);
    assert batch[0] in batch && batch[0].0 in BatchUids(batch);
    if wanted == [] && Selecting(sel) {
      assert batch[0].0 !in BatchUids(batch) - excluded;
      assert w1 == w;
      var s: Option<Standstill>, stuck: seq<Uid> :|
        Partitioned(w.mem, sel.value, s) && ConvergedOn(w, p, sel, errors, g, s, stuck, after, exit, d);
      StuckMakesProgress(w, p, sel, errors, g, s, stuck, after, exit, d);
    }
  }

  lemma ConvergedActs(w: World, p: Policy, sel: Option<Selection>, errors: ErrorMetas, batch: seq<(Uid, Meta)>,
                      f: Faults, g: Faults, after: World, exit: Exit, d: Decision)
    requires Condemned(w, p, sel, errors, batch, f, g, after, exit, d) && exit == Returned
    ensures d.action == Resolved || d.action == SelectionBlocked
  {
    var wanted := UidsOf(NotIn(batch, ExcludedNow(sel, w.mem.queue)));
    var (w1, e1) := FailBulk(w, p, sel, batch, f);
    if wanted == [] && Selecting(sel) {
      var s: Option<Standstill>, stuck: seq<Uid> :|
        Partitioned(w1.mem, sel.value, s) && ConvergedOn(w1, p, sel, errors, g, s, stuck, after, exit, d);
    }
  }

  lemma StuckMakesProgress(w: World, p: Policy, sel: Option<Selection>, errors: ErrorMetas, g: Faults,
                           s: Option<Standstill>, stuck: seq<Uid>, after: World, exit: Exit, d: Decision)
    requires Selecting(sel) && Partitioned(w.mem, sel.value, s) && exit == Returned && d.action == Resolved
    requires ConvergedOn(w, p, sel, errors, g, s, stuck, after, exit, d)
    ensures d.shouldTerminate || |after.mem.queue| < |w.mem.queue|
  {
    if s.Some? && !s.value.OnlyBlockedByExclusion() && s.value.stuck != {} {
      var batch := Blamed(stuck, errors.gap);
      BlamedUids(stuck, errors.gap);
      StuckIsQueued(w.mem, sel.value, s.value);
      WantedUids(batch, ExcludedNow(sel, w.mem.queue));
      BulkMeans(w, p, sel, batch, g);
    }
  }

  /** The fallback archives exactly the stuck jobs that no rule keeps back, as a gap; with nobody stuck, or
      all held back by exclusion, it touches nothing and ends the run. */
  lemma FallbackCarries(w: World, p: Policy, sel: Option<Selection>, errors: ErrorMetas, g: Faults,
                        s: Option<Standstill>, stuck: seq<Uid>, after: World, exit: Exit, d: Decision)
    requires Selecting(sel) && Partitioned(w.mem, sel.value, s)
    requires ConvergedOn(w, p, sel, errors, g, s, stuck, after, exit, d)
    ensures if s.None? || s.value.stuck == {} then
        Untouched(w, after, exit) && d.shouldTerminate && d.failed == []
      else
        var named := s.value.stuck - ExcludedNow(sel, w.mem.queue);
        && after.disk.failed.Keys <= w.disk.failed.Keys + named
        && (exit == Returned ==>
              && after.disk.failed.Keys == w.disk.failed.Keys + named
              && after.mem.QueueUids() == w.mem.QueueUids() - named
              && d.action == Resolved && d.shouldTerminate == (named == {} || after.mem.queue == [])
              && SetOf(d.failed) == named)
        && (!g.batch ==>
              forall u :: u in named ==> u in after.disk.failed && after.disk.failed[u] == p.normalize(errors.gap))
  {
    if s.Some? && s.value.stuck != {} {
      var batch := Blamed(stuck, errors.gap);
      var excluded := ExcludedNow(sel, w.mem.queue);
      BlamedUids(stuck, errors.gap);
      StuckIsQueued(w.mem, sel.value, s.value);
      WantedUids(batch, excluded);
      NotInUids(batch, excluded);
      UidsOfBatch(NotIn(batch, excluded));
      BulkMeans(w, p, sel, batch, g);
      if !g.batch {
        BulkRecords(w, p, sel, batch, errors.gap, g);
      }
    }
  }

  lemma StuckIsQueued(m: Mem, sel: Selection, s: Standstill)
    requires Explains(m, sel, s)
    ensures s.stuck <= m.QueueUids()
  {
    FactsMatchGraph(m.queue);
  }

  /** Some queued job other than the waiting ones has all its dependencies. */
  ghost predicate ReadyElsewhere(m: Mem, missing: set<Uid>) {
    exists r :: r in m.queue && r.Job? && r.uid !in missing && forall d :: d in r.Deps() ==> m.DependencyReady(d)
  }

  /** "Resolved" means the queue got shorter, or the run ends. */
  ghost predicate Progressing(w: World, after: World, exit: Exit, d: Decision) {
    exit == Returned && d.action == Resolved ==> d.shouldTerminate || |after.mem.queue| < |w.mem.queue|
  }

  /** What condemning `who` under `error` amounts to: the queued ones that no rule keeps back are
      archived under that record and leave the queue, and nobody else. If that is nobody under an
      active selection, the arbiter converges. */
  ghost predicate Carried(w: World, p: Policy, sel: Option<Selection>, errors: ErrorMetas, who: set<Uid>, error: Meta,
                          f: Faults, g: Faults, after: World, exit: Exit, d: Decision)
  {
    var named := who * w.mem.QueueUids() - ExcludedNow(sel, w.mem.queue);
    && (named != {} && exit == Returned ==>
          && after.disk.failed.Keys == w.disk.failed.Keys + named
          && after.mem.QueueUids() == w.mem.QueueUids() - named
          && (!f.batch ==>
                forall u :: u in named ==> u in after.disk.failed && after.disk.failed[u] == p.normalize(error))
          && d.action == Resolved && d.shouldTerminate == (after.mem.queue == []) && SetOf(d.failed) == named)
    && (named != {} && exit != Returned ==> after.disk.failed.Keys <= w.disk.failed.Keys + named)
    && (named == {} ==> after.disk.failed.Keys * ExcludedNow(sel, w.mem.queue) <= w.disk.failed.Keys)
    && (named == {} && Selecting(sel) ==> exists w1: World ::
          && w1.mem.queue == w.mem.queue && w1.disk.failed == w.disk.failed
          && Converged(w1, p, sel, errors, g, after, exit, d))
  }

  lemma CondemnedCarries(w: World, p: Policy, sel: Option<Selection>, errors: ErrorMetas, batch: seq<(Uid, Meta)>,
                         who: set<Uid>, error: Meta, f: Faults, g: Faults, after: World, exit: Exit, d: Decision)
    requires Condemned(w, p, sel, errors, batch, f, g, after, exit, d)
    requires BatchUids(batch) == UidSet(w.mem.queue) * who && forall x :: x in batch ==> x.1 == error
    ensures Carried(w, p, sel, errors, who, error, f, g, after, exit, d)
  {
    var excluded := ExcludedNow(sel, w.mem.queue);
    var named := who * w.mem.QueueUids() - excluded;
    var wanted := UidsOf(NotIn(batch, excluded));
    assert BatchUids(batch) - excluded == named;
    WantedUids(batch, excluded);
    BulkMeans(w, p, sel, batch, f);
    if named != {} {
      if !f.batch {
        BulkRecords(w, p, sel, batch, error, f);
      }
      NotInUids(batch, excluded);
      UidsOfBatch(NotIn(batch, excluded));
    } else {
      BulkOfNone(w, p, sel, batch, f);
      CondemningSparesExcluded(w, p, sel, errors, batch, f, g, after, exit, d);
    }
  }

  /** Arbitration never archives a job the selection excludes. */
  lemma CondemningSparesExcluded(w: World, p: Policy, sel: Option<Selection>, errors: ErrorMetas,
                                 batch: seq<(Uid, Meta)>, f: Faults, g: Faults, after: World, exit: Exit, d: Decision)
    requires Condemned(w, p, sel, errors, batch, f, g, after, exit, d) && BatchUids(batch) <= w.mem.QueueUids()
    ensures after.disk.failed.Keys * ExcludedNow(sel, w.mem.queue) <= w.disk.failed.Keys
  {
    var excluded := ExcludedNow(sel, w.mem.queue);
    var wanted := UidsOf(NotIn(batch, excluded));
    var (w1, e1) := FailBulk(w, p, sel, batch, f);
    BulkMeans(w, p, sel, batch, f);
    if e1 == Returned && wanted == [] && Selecting(sel) {
      BulkOfNone(w, p, sel, batch, f);
      var s: Option<Standstill>, stuck: seq<Uid> :|
        Partitioned(w1.mem, sel.value, s) && ConvergedOn(w1, p, sel, errors, g, s, stuck, after, exit, d);
      if s.Some? && s.value.stuck != {} && !s.value.OnlyBlockedByExclusion() {
        BlamedUids(stuck, errors.gap);
        StuckIsQueued(w1.mem, sel.value, s.value);
        BulkMeans(w1, p, sel, Blamed(stuck, errors.gap), g);
      }
    }
  }

  /** Failing nothing leaves the queue and the archive as they were. */
  lemma BulkOfNone(w: World, p: Policy, sel: Option<Selection>, batch: seq<(Uid, Meta)>, f: Faults)
    requires NotIn(batch, ExcludedNow(sel, w.mem.queue)) == []
    ensures FailBulk(w, p, sel, batch, f).0.mem.queue == w.mem.queue
    ensures FailBulk(w, p, sel, batch, f).0.disk.failed == w.disk.failed
  {
    var none: seq<(Uid, Meta)> := [];
    WithoutShrinks(w.mem.queue, {});
    assert BatchUids(none) == {} && NormalizeAll(p, none) == none && UidsOf(none) == [];
  }

  /** One call to the governor counts one more round for a gap retry, below the maximum, and
      ends the count otherwise. */
  ghost predicate Counted(max: nat, before: nat, action: Action, after: nat) {
    if action == GapRetrying then after == before + 1 < max else after == 0
  }

  /** Consecutive calls of one governor. */
  ghost predicate Counts(max: nat, actions: seq<Action>, rounds: seq<nat>) {
    && |rounds| == |actions| + 1
    && forall i :: 0 <= i < |actions| ==> Counted(max, rounds[i], actions[i], rounds[i + 1])
  }

  lemma CountsGrow(max: nat, actions: seq<Action>, rounds: seq<nat>, action: Action, after: nat)
    requires Counts(max, actions, rounds) && Counted(max, rounds[|actions|], action, after)
    ensures Counts(max, actions + [action], rounds + [after])
  {
    var a, r := actions + [action], rounds + [after];
    forall i | 0 <= i < |a| ensures Counted(max, r[i], a[i], r[i + 1]) {
      assert i < |actions| ==> Counted(max, rounds[i], actions[i], rounds[i + 1]);
    }
  }

  /** No more than `max - 1` gap retries ever happen in a row. */
  lemma {:induction false} GapStreakIsBounded(max: nat, actions: seq<Action>, rounds: seq<nat>, i: nat, j: nat)
    requires Counts(max, actions, rounds) && max >= 1 && i <= j <= |actions|
    requires forall k :: i <= k < j ==> actions[k] == GapRetrying
    ensures rounds[j] == rounds[i] + (j - i) && j - i <= max - 1
  {
    if i < j {
      GapStreakIsBounded(max, actions, rounds, i, j - 1);
      assert Counted(max, rounds[j - 1], actions[j - 1], rounds[j - 1 + 1]);
    }
  }

  /** The calls `i..j` are gap retries without a break. */
  predicate Streak(actions: seq<Action>, i: nat, j: nat) {
    i <= j <= |actions| && forall k :: i <= k < j ==> actions[k] == GapRetrying
  }

  lemma StreaksAreBounded(max: nat, actions: seq<Action>, rounds: seq<nat>)
    requires Counts(max, actions, rounds) && max >= 1
    ensures forall i, j {:trigger Streak(actions, i, j)} ::
      0 <= i && 0 <= j && Streak(actions, i, j) ==> j - i <= max - 1
  {
    forall i, j | 0 <= i && 0 <= j && Streak(actions, i, j) ensures j - i <= max - 1 {
      GapStreakIsBounded(max, actions, rounds, i, j);
    }
  }

  /** What the run loop asks of the governor, round by round. */
  datatype Call = Arbitrates(facts: Option<StandstillFacts>, now: real, f: Faults, g: Faults) | Dispatched | NewRun

  /** What a call is to the grace episode: a poll is for a missing set, and its answer is whether the
      governor waits. */
  ghost predicate Echo(call: Call, action: Action, e: GraceWindow.Event, g: Grace, window: real) {
    match call
    case Dispatched => e == Progress && action != GraceWaiting
    case NewRun => e == GraceWindow.Event.Reset && action != GraceWaiting
    case Arbitrates(facts, now, _, _) =>
      if e.Quiet? then action != GraceWaiting
      else
        && facts.Some? && e == Poll(SetOf(facts.value.attribution.missing), facts.value.hasPotentialSpawners, now)
        && e.missing != {}
        && (action == GraceWaiting <==> Check(g, e.missing, Some(e.spawners), false, now, window).1)
  }

  /** What a course asks of the grace episode. */
  function EventOf(course: Course, facts: Option<StandstillFacts>, now: real): GraceWindow.Event {
    if facts.Some? && course.Blame? && course.cause.MissingDependencies? then
      Poll(SetOf(facts.value.attribution.missing), facts.value.hasPotentialSpawners, now)
    else Quiet
  }

  ghost predicate EchoAt(calls: seq<Call>, actions: seq<Action>, events: seq<GraceWindow.Event>, window: real, n: nat)
    requires n < |calls| && n < |actions| && n < |events|
  {
    Echo(calls[n], actions[n], events[n], After(events, n, window).g, window)
  }

  ghost predicate Echoes(calls: seq<Call>, actions: seq<Action>, events: seq<GraceWindow.Event>, window: real) {
    |events| == |actions| <= |calls| && forall n :: 0 <= n < |events| ==> EchoAt(calls, actions, events, window, n)
  }

  lemma EchoesGrow(calls: seq<Call>, actions: seq<Action>, events: seq<GraceWindow.Event>, window: real,
                   action: Action, event: GraceWindow.Event)
    requires Echoes(calls, actions, events, window) && |events| < |calls|
    requires Echo(calls[|events|], action, event, After(events, |events|, window).g, window)
    ensures Echoes(calls, actions + [action], events + [event], window)
    ensures After(events + [event], |events| + 1, window).g ==
      NextGrace(After(events, |events|, window).g, event, window)
  {
    var a, e := actions + [action], events + [event];
    forall n | 0 <= n < |e| ensures EchoAt(calls, a, e, window, n) {
      if n < |events| {
        EchoStays(calls, actions, events, action, event, window, n);
      } else {
        AfterPrefix(events, e, n, window);
      }
    }
    AfterPrefix(events, e, |events|, window);
  }

  lemma EchoStays(calls: seq<Call>, actions: seq<Action>, events: seq<GraceWindow.Event>, action: Action,
                  event: GraceWindow.Event, window: real, n: nat)
    requires n < |events| == |actions| < |calls| && EchoAt(calls, actions, events, window, n)
    ensures EchoAt(calls, actions + [action], events + [event], window, n)
  {
    AfterPrefix(events, events + [event], n, window);
  }

  lemma {:induction false} AfterPrefix(a: seq<GraceWindow.Event>, b: seq<GraceWindow.Event>, n: nat, window: real)
    requires n <= |a| && a <= b
    ensures After(a, n, window) == After(b, n, window)
  {
    if n > 0 {
      AfterPrefix(a, b, n - 1, window);
    }
  }

  /** In a run loop that asks the governor at least once per window while nothing is dispatched: it
      does not condemn a missing set, a spawner given, before it has waited for that very set a
      whole window without a break. */
  lemma CondemnsAfterFullWindow(calls: seq<Call>, actions: seq<Action>, events: seq<GraceWindow.Event>, window: real,
                                n: nat)
    returns (i: nat)
    requires Echoes(calls, actions, events, window) && AskedOften(events, window) && window > 0.0 && n < |events|
    requires events[n].Poll? && events[n].spawners && actions[n] != GraceWaiting
    ensures i < n && OneWait(events, i, n, events[n].missing, window)
    ensures events[i].Poll? && events[n].now - events[i].now >= window
    ensures forall k :: i <= k < n && events[k].Poll? ==> actions[k] == GraceWaiting
  {
    assert EchoAt(calls, actions, events, window, n);
    i := AskedOftenIsFair(events, n, window);
    forall k | i <= k < n && events[k].Poll? ensures actions[k] == GraceWaiting {
      assert EchoAt(calls, actions, events, window, k);
    }
  }

  /** An active selection has left nothing that could run, and nothing stuck. */
  ghost predicate AllHeldBack(sel: Option<Selection>, s: Option<Standstill>) {
    sel.Some? && sel.value.rules != [] && s.Some? && s.value.stuck == {} && s.value.unblocked == {}
  }

  ghost predicate Untouched(w: World, after: World, exit: Exit) { after == w && exit == Returned }

  class DeadlockGovernor {
    const window: real
    const gapMax: nat
    const errors: ErrorMetas
    var deadline: Option<real>
    var missing: Option<set<Uid>>
    var gapRounds: nat

    constructor (w: real, max: nat, e: ErrorMetas)
      requires w > 0.0 && max >= 1  // the validated configuration domain
      ensures window == w && gapMax == max && errors == e && Episode() == OVER && gapRounds == 0
    {
      window, gapMax, errors := w, max, e;
      deadline, missing, gapRounds := None, None, 0;
    }

    ghost function Episode(): Grace
      reads this
    {
      Grace(deadline, missing)
    }

    method Reset()
      modifies this
      ensures Episode() == OVER && gapRounds == 0
    {
      EndGraceEpisode();
      gapRounds := 0;
    }

    method EndGraceEpisode()
      modifies this`deadline, this`missing
      ensures Episode() == OVER
    {
      deadline, missing := None, None;
    }

    /** A dispatch ends the episode and the streak of gaps. */
    method RecordDispatchProgress()
      modifies this
      ensures Episode() == Progressed(old(Episode())) && gapRounds == 0
    {
      if deadline.Some? {
        EndGraceEpisode();
      }
      gapRounds := 0;
    }

    method GrantOrExpire(now: real) returns (waits: bool)
      modifies this`deadline, this`missing
      ensures (Episode(), waits) == GraceWindow.GrantOrExpire(old(Episode()), now, window)
    {
      var d := if deadline.Some? then deadline.value else now + window;
      if deadline.None? {
        deadline := Some(d);
      }
      if now < d {
        return true;
      }
      EndGraceEpisode();
      waits := false;
    }

    method CheckDependencyGrace(state: PipelineState, uids: set<Uid>, spawners: Option<bool>, now: real)
      returns (waits: bool)
      requires state.Valid()
      modifies this`deadline, this`missing
      ensures (Episode(), waits) ==
        Check(old(Episode()), uids, spawners, ReadyElsewhere(state.View(), uids), now, window)
    {
      if uids == {} {
        return false;
      }
      if missing.Some? && missing.value != uids {
        deadline := None;
      }
      missing := Some(uids);
      if deadline.Some? && now - deadline.value > window {
        EndGraceEpisode();
      }
      if spawners.Some? {
        if !spawners.value {
          EndGraceEpisode();
          return false;
        }
        waits := GrantOrExpire(now);
        return;
      }
      var ready := FindReady(state, uids);
      if ready {
        waits := GrantOrExpire(now);
        return;
      }
      waits := false;
    }

    static method FindReady(state: PipelineState, uids: set<Uid>) returns (ready: bool)
      requires state.Valid()
      ensures ready <==> ReadyElsewhere(state.View(), uids)
    {
      var m := Mem(state.queue, state.inFlight, state.successes, state.failed, state.cursors, state.triggerSkipped);
      for i := 0 to |state.queue|
        invariant forall k :: 0 <= k < i ==> var r := state.queue[k];
          !(r.Job? && r.uid !in uids && forall d :: d in r.Deps() ==> m.DependencyReady(d))
      {
        var row := state.queue[i];
        if row.uid !in uids && row.Job? {
          if forall d :: d in row.Deps() ==> m.DependencyReady(d) {
            return true;
          }
        }
      }
      ready := false;
    }

    /** One more round in a row without an explanation. */
    method CheckGapOrEscalate() returns (escalated: bool)
      modifies this`gapRounds
      ensures gapRounds == old(gapRounds) + 1 && (escalated <==> gapRounds >= gapMax)
    {
      gapRounds := gapRounds + 1;
      escalated := gapRounds >= gapMax;
    }

    static method SplitDeadlockByUids(queue: seq<Row>, target: Option<set<Uid>>, error: Meta)
      returns (batch: seq<(Uid, Meta)>)
      ensures batch == Split(queue, target, error)
    {
      batch := [];
      for i := 0 to |queue|
        invariant batch == Split(queue[..i], target, error)
      {
        assert queue[..i + 1][..i] == queue[..i];
        if target.None? || queue[i].uid in target.value {
          batch := batch + [(queue[i].uid, error)];
        }
      }
      assert queue[..|queue|] == queue;
    }

    /** The single entry: facts of a scan of the state the store holds now. `f` and `g` say
        which commits of the first and of the fallback failure batch fail. */
    method Arbitrate(facts: Option<StandstillFacts>, store: StateStore, now: real, f: Faults, g: Faults,
                     ghost foreign: set<Uid>)
      returns (d: Decision, exit: Exit, ghost course: Course, ghost s: Option<Standstill>, ghost cycle: set<Uid>)
      requires store.Valid() && Mirrors(store.Now(), foreign, {})
      modifies this, store.backend, store.state
      ensures store.Valid() && Mirrors(store.Now(), foreign, {})
      ensures facts.None? ==> course == LetWait
      ensures facts.Some? ==> Informed(old(store.state.View()), store.selection, s, cycle)
      ensures facts.Some? ==>
        course == CourseOf(facts.value, Selecting(store.selection), OnlyBlocked(s), cycle != {})
      ensures !course.Blame? ==> Idle(course, s, old(Episode()), old(store.Now()), store.Now(), exit, d)
      ensures course.Blame? ==>
        Blaming(facts.value, course.cause, cycle, old(Episode()), old(gapRounds), now, old(store.Now()), store.policy,
                store.selection, f, g, store.Now(), exit, d)
      ensures facts.Some? && Grounded(facts.value, old(store.state.queueUids)) && old(store.state.queue) != [] ==>
        Progressing(old(store.Now()), store.Now(), exit, d)
      ensures exit == Returned ==> Counted(gapMax, old(gapRounds), d.action, gapRounds)
      ensures facts.Some? ==>
        Justified(facts.value, s, cycle, old(Episode()), old(gapRounds), now, old(store.Now()), store.policy,
                  store.selection, f, g, store.Now(), exit, d)
    {
      if facts.None? {
        gapRounds := 0;
        return NO_DECISION, Returned, LetWait, None, {};
      }
      ghost var w, episode, rounds := store.Now(), Episode(), gapRounds;
      d, exit, s, cycle := ArbitrateFacts(facts.value, store, now, f, g, foreign);
      course := CourseOf(facts.value, Selecting(store.selection), OnlyBlocked(s), cycle != {});
      if course.Blame? {
        BlamingDecides(facts.value, s, course.cause, cycle, episode, rounds, now, w, store.policy, store.selection,
                       f, g, store.Now(), exit, d);
        BlamingIsRight(facts.value, cycle, episode, rounds, now, w, store.policy, store.selection, f, g,
                       store.Now(), exit, d);
        BlameIsDue(facts.value, s, store.selection, cycle);
      } else {
        IdleIsJustified(facts.value, s, cycle, episode, rounds, now, w, store.policy, store.selection, f, g,
                        store.Now(), exit, d);
      }
    }

    /** The whole decision in terms of the facts and the cycle: report a block, let wait, or blame. */
    ghost predicate Justified(facts: StandstillFacts, s: Option<Standstill>, cycle: set<Uid>, episode: Grace,
                              rounds: nat, now: real, w: World, p: Policy, sel: Option<Selection>, f: Faults,
                              g: Faults, after: World, exit: Exit, d: Decision)
    {
      var a := facts.attribution;
      if AllHeldBack(sel, s) && a.malformed == [] && a.unknown == [] && a.missing == [] && a.impossible == [] then
        Untouched(w, after, exit) && d == Decision(SelectionBlocked, true, [], s)
      else if facts.minWait.Finite? && !(facts.waitingForDependency && cycle != {}) then
        Untouched(w, after, exit) && d.action == NoAction && !d.shouldTerminate
      else BlamesRightly(facts, cycle, episode, rounds, now, w, p, sel, f, g, after, exit, d)
    }

    /** Wait out a grace window, wait for another round, or condemn those to blame. Everybody is condemned
        only in the round `gapMax` of a standstill that nothing explains. */
    ghost predicate BlamesRightly(facts: StandstillFacts, cycle: set<Uid>, episode: Grace, rounds: nat, now: real,
                                  w: World, p: Policy, sel: Option<Selection>, f: Faults, g: Faults, after: World,
                                  exit: Exit, d: Decision)
    {
      var a := facts.attribution;
      if a.malformed == [] && a.unknown == [] && a.missing != [] &&
        Check(episode, SetOf(a.missing), Some(facts.hasPotentialSpawners), false, now, window).1 then
        Untouched(w, after, exit) && d.action == GraceWaiting && !d.shouldTerminate
      else if Unexplained(facts, cycle) && rounds + 1 < gapMax then
        Untouched(w, after, exit) && d.action == GapRetrying && !d.shouldTerminate
      else
        forall who, error :: BlamedOn(facts, cycle, UidSet(w.mem.queue), errors, who, error) ==>
          Carried(w, p, sel, errors, who, error, f, g, after, exit, d)
    }

    lemma IdleIsJustified(facts: StandstillFacts, s: Option<Standstill>, cycle: set<Uid>, episode: Grace, rounds: nat,
                          now: real, w: World, p: Policy, sel: Option<Selection>, f: Faults, g: Faults, after: World,
                          exit: Exit, d: Decision)
      requires var course := CourseOf(facts, Selecting(sel), OnlyBlocked(s), cycle != {});
        !course.Blame? && Idle(course, s, episode, w, after, exit, d)
      ensures Justified(facts, s, cycle, episode, rounds, now, w, p, sel, f, g, after, exit, d)
    {
    }

    /** Blaming is due exactly when nothing is to wait for, or the wait is a cycle, unless all is held back. */
    lemma BlameIsDue(facts: StandstillFacts, s: Option<Standstill>, sel: Option<Selection>, cycle: set<Uid>)
      ensures var a := facts.attribution;
        CourseOf(facts, Selecting(sel), OnlyBlocked(s), cycle != {}).Blame? <==>
          && !(AllHeldBack(sel, s) && a.malformed == [] && a.unknown == [] && a.missing == [] && a.impossible == [])
          && (facts.minWait == Infinite || (facts.waitingForDependency && cycle != {}))
    {
    }

    lemma BlamingIsRight(facts: StandstillFacts, cycle: set<Uid>, episode: Grace, rounds: nat, now: real, w: World,
                         p: Policy, sel: Option<Selection>, f: Faults, g: Faults, after: World, exit: Exit, d: Decision)
      requires Blaming(facts, CauseOf(facts, cycle != {}), cycle, episode, rounds, now, w, p, sel, f, g, after, exit, d)
      ensures BlamesRightly(facts, cycle, episode, rounds, now, w, p, sel, f, g, after, exit, d)
    {
      CausesMean(facts, cycle);
      if Condemns(facts, cycle, w, p, sel, f, g, after, exit, d) {
        CondemnsThoseBlamed(facts, cycle, w, p, sel, f, g, after, exit, d);
      }
    }

    lemma CondemnsThoseBlamed(facts: StandstillFacts, cycle: set<Uid>, w: World, p: Policy, sel: Option<Selection>,
                              f: Faults, g: Faults, after: World, exit: Exit, d: Decision)
      requires Condemns(facts, cycle, w, p, sel, f, g, after, exit, d)
      ensures forall who, error :: BlamedOn(facts, cycle, UidSet(w.mem.queue), errors, who, error) ==>
        Carried(w, p, sel, errors, who, error, f, g, after, exit, d)
    {
      var cause := CauseOf(facts, cycle != {});
      var batch := Split(w.mem.queue, TargetOf(facts, cause, cycle), ErrorOf(errors, cause));
      forall who, error | BlamedOn(facts, cycle, UidSet(w.mem.queue), errors, who, error)
        ensures Carried(w, p, sel, errors, who, error, f, g, after, exit, d)
      {
        BatchIsBlamed(w.mem.queue, facts, cycle, errors, who, error);
        CondemnedCarries(w, p, sel, errors, batch, who, error, f, g, after, exit, d);
      }
    }

    ghost predicate Condemns(facts: StandstillFacts, cycle: set<Uid>, w: World, p: Policy, sel: Option<Selection>,
                             f: Faults, g: Faults, after: World, exit: Exit, d: Decision)
    {
      var cause := CauseOf(facts, cycle != {});
      var batch := Split(w.mem.queue, TargetOf(facts, cause, cycle), ErrorOf(errors, cause));
      Condemned(w, p, sel, errors, batch, f, g, after, exit, d)
    }

    method ArbitrateFacts(facts: StandstillFacts, store: StateStore, now: real, f: Faults, g: Faults,
                          ghost foreign: set<Uid>)
      returns (d: Decision, exit: Exit, s: Option<Standstill>, cycle: set<Uid>)
      requires store.Valid() && Mirrors(store.Now(), foreign, {})
      modifies this, store.backend, store.state
      ensures store.Valid() && Mirrors(store.Now(), foreign, {})
      ensures Informed(old(store.state.View()), store.selection, s, cycle)
      ensures var course := CourseOf(facts, Selecting(store.selection), OnlyBlocked(s), cycle != {});
        if course.Blame?
        then Blaming(facts, course.cause, cycle, old(Episode()), old(gapRounds), now, old(store.Now()), store.policy,
                     store.selection, f, g, store.Now(), exit, d)
        else Idle(course, s, old(Episode()), old(store.Now()), store.Now(), exit, d)
    {
      s := None;
      if Selecting(store.selection) {
        s := Partition(store.state, store.selection.value);
      }
      cycle := Cycles(store, s);
      d, exit := Follow(facts, store, s, cycle, now, f, g, foreign);
    }

    /** Neither course touches the store or the grace episode; both end a streak of gaps. */
    ghost predicate Idle(course: Course, s: Option<Standstill>, episode: Grace, w: World, after: World, exit: Exit,
                         d: Decision)
      reads this
    {
      && Untouched(w, after, exit) && Episode() == episode && gapRounds == 0
      && d == if course.Blocked? then Decision(SelectionBlocked, true, [], s) else NO_DECISION
    }

    /** The branches of the arbiter, in its order. */
    method Follow(facts: StandstillFacts, store: StateStore, partition: Option<Standstill>, cycle: set<Uid>, now: real,
                  f: Faults, g: Faults, ghost foreign: set<Uid>)
      returns (d: Decision, exit: Exit)
      requires store.Valid() && Mirrors(store.Now(), foreign, {})
      requires Informed(store.state.View(), store.selection, partition, cycle)
      modifies this, store.backend, store.state
      ensures store.Valid() && Mirrors(store.Now(), foreign, {})
      ensures var course := CourseOf(facts, Selecting(store.selection), OnlyBlocked(partition), cycle != {});
        if course.Blame?
        then Blaming(facts, course.cause, cycle, old(Episode()), old(gapRounds), now, old(store.Now()), store.policy,
                     store.selection, f, g, store.Now(), exit, d)
        else Idle(course, partition, old(Episode()), old(store.Now()), store.Now(), exit, d)
    {
      if Selecting(store.selection) && !facts.attribution.HasCauses() && OnlyBlocked(partition) {
        gapRounds := 0;
        return Decision(SelectionBlocked, true, [], partition), Returned;
      }
      if facts.minWait == Infinite || (facts.waitingForDependency && cycle != {}) {
        d, exit := ResolveDeadlock(facts, store, partition, cycle, now, f, g, foreign);
        return;
      }
      gapRounds := 0;
      d, exit := NO_DECISION, Returned;
    }

    lemma BlamingMakesProgress(facts: StandstillFacts, s: Option<Standstill>, cycle: set<Uid>, episode: Grace,
                               rounds: nat, now: real, w: World, p: Policy, sel: Option<Selection>, f: Faults,
                               g: Faults, after: World, exit: Exit, d: Decision)
      requires Informed(w.mem, sel, s, cycle) && w.mem.queue != [] && Grounded(facts, w.mem.QueueUids())
      requires Blaming(facts, CauseOf(facts, cycle != {}), cycle, episode, rounds, now, w, p, sel, f, g, after, exit, d)
      ensures Progressing(w, after, exit, d)
    {
      var cause := CauseOf(facts, cycle != {});
      var batch := Split(w.mem.queue, TargetOf(facts, cause, cycle), ErrorOf(errors, cause));
      CyclesAreQueued(w.mem, sel, s, cycle);
      SomebodyIsBlamed(w.mem.queue, facts, cycle != {}, cycle, ErrorOf(errors, cause));
      SplitUids(w.mem.queue, TargetOf(facts, cause, cycle), ErrorOf(errors, cause));
      if exit == Returned && d.action == Resolved {
        CondemningMakesProgress(w, p, sel, errors, batch, f, g, after, exit, d);
      }
    }

    /** Only a gap retry keeps the count of gaps going, and only a grace window makes it wait. */
    lemma BlamingCounts(facts: StandstillFacts, cause: Cause, cycle: set<Uid>, episode: Grace, rounds: nat, now: real,
                        w: World, p: Policy, sel: Option<Selection>, f: Faults, g: Faults, after: World, exit: Exit,
                        d: Decision)
      requires Blaming(facts, cause, cycle, episode, rounds, now, w, p, sel, f, g, after, exit, d)
      ensures exit == Returned ==> Counted(gapMax, rounds, d.action, gapRounds)
      ensures exit == Returned && d.action == GraceWaiting ==> cause.MissingDependencies?
      ensures exit == Returned && cause.MissingDependencies? ==>
        (d.action == GraceWaiting <==>
           Check(episode, SetOf(facts.attribution.missing), Some(facts.hasPotentialSpawners), false, now, window).1)
    {
      var batch := Split(w.mem.queue, TargetOf(facts, cause, cycle), ErrorOf(errors, cause));
      if exit == Returned && Condemned(w, p, sel, errors, batch, f, g, after, exit, d) {
        ConvergedActs(w, p, sel, errors, batch, f, g, after, exit, d);
      }
    }

    lemma BlamingDecides(facts: StandstillFacts, s: Option<Standstill>, cause: Cause, cycle: set<Uid>, episode: Grace,
                         rounds: nat, now: real, w: World, p: Policy, sel: Option<Selection>, f: Faults, g: Faults,
                         after: World, exit: Exit, d: Decision)
      requires Informed(w.mem, sel, s, cycle) && cause == CauseOf(facts, cycle != {})
      requires Blaming(facts, cause, cycle, episode, rounds, now, w, p, sel, f, g, after, exit, d)
      ensures exit == Returned ==> Counted(gapMax, rounds, d.action, gapRounds)
      ensures w.mem.queue != [] && Grounded(facts, w.mem.QueueUids()) ==> Progressing(w, after, exit, d)
    {
      BlamingCounts(facts, cause, cycle, episode, rounds, now, w, p, sel, f, g, after, exit, d);
      if w.mem.queue != [] && Grounded(facts, w.mem.QueueUids()) {
        BlamingMakesProgress(facts, s, cycle, episode, rounds, now, w, p, sel, f, g, after, exit, d);
      }
    }

    /** A scan of the state the store holds now, then the arbiter: if the scan, of all rows and with
        a clean job cache, finds nothing to dispatch, the arbiter never retries for a gap. */
    method ScanAndArbitrate(scheduler: JobScheduler, store: StateStore, order: seq<nat>, evals: seq<Evaluation>,
                            now: real, f: Faults, g: Faults, ghost foreign: set<Uid>)
      returns (r: ScheduleResult, d: Decision, exit: Exit)
      requires scheduler.Valid() && scheduler.Clean(store.state.queue) && scheduler.selection == store.selection
      requires store.Valid() && Mirrors(store.Now(), foreign, {})
      requires store.state.queue != [] && DistinctUids(store.state.queue) && store.state.inFlight == {}
      requires |evals| == |store.state.queue| && (forall k :: 0 <= k < |order| ==> order[k] < |store.state.queue|)
      requires forall i :: 0 <= i < |store.state.queue| ==> i in order
      modifies this, scheduler`cache, store.backend, store.state
      ensures store.Valid() && Mirrors(store.Now(), foreign, {})
      ensures r.kind == NoneKind && exit == Returned ==> d.action != GapRetrying && gapRounds == 0
      ensures r.kind == NoneKind && exit == Returned && d.action == Resolved ==>
        d.shouldTerminate || |store.state.queue| < |old(store.state.queue)|
      ensures r.kind != NoneKind ==> d == NO_DECISION && Untouched(old(store.Now()), store.Now(), exit)
    {
      ghost var visits;
      ghost var c, w := Context(store.state.View(), store.selection, {}), store.Now();
      r, visits := scheduler.ScanNextRunnable(store.state, {}, order, evals);
      assert store.Now() == w && Visited(c, order, evals, visits);
      if r.kind != NoneKind {
        return r, NO_DECISION, Returned;
      }
      d, exit := ArbitrateFruitless(c, order, evals, visits, r, store, now, f, g, foreign);
    }

    method ArbitrateFruitless(ghost c: Context, ghost order: seq<nat>, ghost evals: seq<Evaluation>,
                              ghost visits: seq<Visit>, r: ScheduleResult, store: StateStore, now: real, f: Faults,
                              g: Faults, ghost foreign: set<Uid>)
      returns (d: Decision, exit: Exit)
      requires store.Valid() && Mirrors(store.Now(), foreign, {})
      requires Fruitless(c, order, evals, visits, r) && c.m == store.state.View() && c.sel == store.selection
      modifies this, store.backend, store.state
      ensures store.Valid() && Mirrors(store.Now(), foreign, {})
      ensures exit == Returned ==> d.action != GapRetrying && gapRounds == 0
      ensures exit == Returned && d.action == Resolved ==>
        d.shouldTerminate || |store.state.queue| < |old(store.state.queue)|
    {
      ghost var course, s, cycle;
      ghost var w, episode, rounds := store.Now(), Episode(), gapRounds;
      ReportsAreGrounded(c, visits, r.facts);
      d, exit, course, s, cycle := Arbitrate(Some(r.facts), store, now, f, g, foreign);
      FruitlessLeavesNoGap(c, order, evals, visits, r, s, cycle);
      if course.Blame? {
        ExplainedIsNotRetried(r.facts, course.cause, cycle, episode, rounds, now, w, store.policy, store.selection,
                              f, g, store.Now(), exit, d);
      }
    }

    /** The governor over a run loop, from the start of a run up to the first crash. Its gap retries
        come at most `gapMax - 1` in a row, and its grace episode is that of the run `events` of
        `GraceWindow`, whose waits are its grace waits. */
    method Govern(calls: seq<Call>, store: StateStore, ghost foreign: set<Uid>)
      returns (actions: seq<Action>, exit: Exit, ghost rounds: seq<nat>, ghost events: seq<GraceWindow.Event>,
               ghost path: seq<World>)
      requires store.Valid() && Mirrors(store.Now(), foreign, {}) && gapMax >= 1
      modifies this, store.backend, store.state
      ensures store.Valid() && Mirrors(store.Now(), foreign, {}) && |actions| <= |calls|
      ensures exit == Returned ==> |actions| == |calls|
      ensures Counts(gapMax, actions, rounds)
      ensures forall i, j {:trigger Streak(actions, i, j)} ::
        0 <= i && 0 <= j && Streak(actions, i, j) ==> j - i <= gapMax - 1
      ensures Echoes(calls, actions, events, window)
      ensures exit == Returned ==> Episode() == After(events, |events|, window).g
      ensures ServesAll(calls, actions, rounds, events, path, store.policy, store.selection)
      ensures path[0] == old(store.Now()) && (exit == Returned ==> path[|calls|] == store.Now())
    {
      Reset();
      actions, exit, rounds, events, path := [], Returned, [gapRounds], [], [store.Now()];
      for n := 0 to |calls|
        invariant store.Valid() && Mirrors(store.Now(), foreign, {}) && exit == Returned
        invariant Underway(calls, n, actions, rounds, events, path, store) && path[0] == old(store.Now())
      {
        actions, exit, rounds, events, path := ServeNext(calls, n, actions, rounds, events, path, store, foreign);
        if exit != Returned {
          break;
        }
      }
      StreaksAreBounded(gapMax, actions, rounds);
    }

    /** One call more; a crash adds nothing. */
    method ServeNext(calls: seq<Call>, n: nat, actions0: seq<Action>, ghost rounds0: seq<nat>,
                     ghost events0: seq<GraceWindow.Event>, ghost path0: seq<World>, store: StateStore,
                     ghost foreign: set<Uid>)
      returns (actions: seq<Action>, exit: Exit, ghost rounds: seq<nat>, ghost events: seq<GraceWindow.Event>,
               ghost path: seq<World>)
      requires store.Valid() && Mirrors(store.Now(), foreign, {}) && n < |calls|
      requires Underway(calls, n, actions0, rounds0, events0, path0, store)
      modifies this, store.backend, store.state
      ensures store.Valid() && Mirrors(store.Now(), foreign, {}) && path != [] && path[0] == path0[0]
      ensures exit == Returned ==> Underway(calls, n + 1, actions, rounds, events, path, store)
      ensures exit != Returned ==> Accounts(calls, actions, rounds, events, path, store.policy, store.selection)
    {
      var action;
      ghost var event;
      action, exit, event := Serve(calls[n], store, foreign);
      actions, rounds, events, path := actions0, rounds0, events0, path0;
      if exit == Returned {
        AccountsGrow(calls, actions, rounds, events, path, store.policy, store.selection, action, gapRounds, event,
                     store.Now());
        actions, rounds, events := actions + [action], rounds + [gapRounds], events + [event];
        path := path + [store.Now()];
      }
    }

    /** `n` calls are served, and the last entries are what holds now. */
    ghost predicate Underway(calls: seq<Call>, n: nat, actions: seq<Action>, rounds: seq<nat>,
                             events: seq<GraceWindow.Event>, path: seq<World>, store: StateStore)
      reads this, store, store.backend, store.state
    {
      && |actions| == n && Accounts(calls, actions, rounds, events, path, store.policy, store.selection)
      && rounds[n] == gapRounds && Episode() == After(events, n, window).g && path[n] == store.Now()
    }

    method Serve(call: Call, store: StateStore, ghost foreign: set<Uid>)
      returns (action: Action, exit: Exit, ghost event: GraceWindow.Event)
      requires store.Valid() && Mirrors(store.Now(), foreign, {})
      modifies this, store.backend, store.state
      ensures store.Valid() && Mirrors(store.Now(), foreign, {})
      ensures exit == Returned ==> Counted(gapMax, old(gapRounds), action, gapRounds)
      ensures exit == Returned ==> Echo(call, action, event, old(Episode()), window)
      ensures exit == Returned ==> Episode() == NextGrace(old(Episode()), event, window)
      ensures Served(call, old(Episode()), old(gapRounds), old(store.Now()), store.policy, store.selection, action,
                     exit, store.Now())
    {
      action, exit, event := NoAction, Returned, Quiet;
      match call {
        case Arbitrates(facts, now, f, g) => action, exit, event := ServeArbitration(facts, store, now, f, g, foreign);
        case Dispatched =>
          RecordDispatchProgress();
          event := Progress;
        case NewRun =>
          Reset();
          event := GraceWindow.Event.Reset;
      }
    }

    /** Each call is served out of the world, the count and the episode its predecessors left. */
    ghost predicate ServesAll(calls: seq<Call>, actions: seq<Action>, rounds: seq<nat>,
                              events: seq<GraceWindow.Event>, path: seq<World>, p: Policy, sel: Option<Selection>)
    {
      && |events| == |actions| <= |calls| && |path| == |rounds| == |actions| + 1
      && forall n :: 0 <= n < |actions| ==> ServesAt(calls[n], actions[n], rounds, events, path, p, sel, n)
    }

    ghost predicate ServesAt(call: Call, action: Action, rounds: seq<nat>, events: seq<GraceWindow.Event>,
                             path: seq<World>, p: Policy, sel: Option<Selection>, n: nat)
      requires n < |events| && n < |rounds| && n + 1 < |path|
    {
      Served(call, After(events, n, window).g, rounds[n], path[n], p, sel, action, Returned, path[n + 1])
    }

    ghost predicate Accounts(calls: seq<Call>, actions: seq<Action>, rounds: seq<nat>,
                             events: seq<GraceWindow.Event>, path: seq<World>, p: Policy, sel: Option<Selection>)
    {
      && Counts(gapMax, actions, rounds) && Echoes(calls, actions, events, window)
      && ServesAll(calls, actions, rounds, events, path, p, sel)
    }

    lemma AccountsGrow(calls: seq<Call>, actions: seq<Action>, rounds: seq<nat>, events: seq<GraceWindow.Event>,
                       path: seq<World>, p: Policy, sel: Option<Selection>, action: Action, count: nat,
                       event: GraceWindow.Event, after: World)
      requires Accounts(calls, actions, rounds, events, path, p, sel) && |actions| < |calls|
      requires var n := |actions|;
        var episode := After(events, n, window).g;
        && Counted(gapMax, rounds[n], action, count) && Echo(calls[n], action, event, episode, window)
        && Served(calls[n], episode, rounds[n], path[n], p, sel, action, Returned, after)
      ensures Accounts(calls, actions + [action], rounds + [count], events + [event], path + [after], p, sel)
      ensures After(events + [event], |events| + 1, window).g ==
        NextGrace(After(events, |events|, window).g, event, window)
    {
      CountsGrow(gapMax, actions, rounds, action, count);
      EchoesGrow(calls, actions, events, window, action, event);
      ServesGrow(calls, actions, rounds, events, path, p, sel, action, count, event, after);
    }

    lemma ServesGrow(calls: seq<Call>, actions: seq<Action>, rounds: seq<nat>, events: seq<GraceWindow.Event>,
                     path: seq<World>, p: Policy, sel: Option<Selection>, action: Action, count: nat,
                     event: GraceWindow.Event, after: World)
      requires ServesAll(calls, actions, rounds, events, path, p, sel) && |actions| < |calls|
      requires var n := |actions|;
        Served(calls[n], After(events, n, window).g, rounds[n], path[n], p, sel, action, Returned, after)
      ensures ServesAll(calls, actions + [action], rounds + [count], events + [event], path + [after], p, sel)
    {
      var a, r, e, w := actions + [action], rounds + [count], events + [event], path + [after];
      forall n | 0 <= n < |a| ensures ServesAt(calls[n], a[n], r, e, w, p, sel, n) {
        AfterPrefix(events, e, n, window);
        assert n < |actions| ==> ServesAt(calls[n], actions[n], rounds, events, path, p, sel, n);
      }
    }

    /** An arbitration decides as it should on the state it finds; the other calls touch neither side. */
    ghost predicate Served(call: Call, episode: Grace, rounds: nat, w: World, p: Policy, sel: Option<Selection>,
                           action: Action, exit: Exit, after: World)
    {
      if call.Arbitrates? && call.facts.Some? then
        exists d: Decision, s: Option<Standstill>, cycle: set<Uid> ::
          && d.action == action && Informed(w.mem, sel, s, cycle)
          && Justified(call.facts.value, s, cycle, episode, rounds, call.now, w, p, sel, call.f, call.g, after, exit, d)
      else Untouched(w, after, exit) && action == NoAction
    }

    method ServeArbitration(facts: Option<StandstillFacts>, store: StateStore, now: real, f: Faults, g: Faults,
                            ghost foreign: set<Uid>)
      returns (action: Action, exit: Exit, ghost event: GraceWindow.Event)
      requires store.Valid() && Mirrors(store.Now(), foreign, {})
      modifies this, store.backend, store.state
      ensures store.Valid() && Mirrors(store.Now(), foreign, {})
      ensures exit == Returned ==> Counted(gapMax, old(gapRounds), action, gapRounds)
      ensures exit == Returned ==> Echo(Arbitrates(facts, now, f, g), action, event, old(Episode()), window)
      ensures exit == Returned ==> Episode() == NextGrace(old(Episode()), event, window)
      ensures Served(Arbitrates(facts, now, f, g), old(Episode()), old(gapRounds), old(store.Now()), store.policy,
                     store.selection, action, exit, store.Now())
    {
      ghost var course, s, cycle;
      ghost var w, episode, rounds := store.Now(), Episode(), gapRounds;
      var d;
      d, exit, course, s, cycle := Arbitrate(facts, store, now, f, g, foreign);
      action := d.action;
      event := EventOf(course, facts, now);
      if course.Blame? {
        BlamingEchoes(facts.value, course.cause, cycle, episode, rounds, now, w, store.policy, store.selection, f, g,
                      store.Now(), exit, d);
      }
    }

    /** Blaming missing dependencies polls the grace episode and answers with its verdict; any other
        blame leaves it alone and does not wait. */
    lemma BlamingEchoes(facts: StandstillFacts, cause: Cause, cycle: set<Uid>, episode: Grace, rounds: nat, now: real,
                        w: World, p: Policy, sel: Option<Selection>, f: Faults, g: Faults, after: World, exit: Exit,
                        d: Decision)
      requires Blaming(facts, cause, cycle, episode, rounds, now, w, p, sel, f, g, after, exit, d)
      requires cause.MissingDependencies? ==> facts.attribution.missing != []
      ensures var event := EventOf(Blame(cause), Some(facts), now);
        exit == Returned ==>
          && Echo(Arbitrates(Some(facts), now, f, g), d.action, event, episode, window)
          && Episode() == NextGrace(episode, event, window)
    {
      BlamingCounts(facts, cause, cycle, episode, rounds, now, w, p, sel, f, g, after, exit, d);
      if cause.MissingDependencies? {
        assert facts.attribution.missing[0] in SetOf(facts.attribution.missing);
      }
    }

    /** Carrying out a blame: wait out a grace window, retry a gap, or condemn. */
    ghost predicate Blaming(facts: StandstillFacts, cause: Cause, cycle: set<Uid>, episode: Grace, rounds: nat,
                            now: real, w: World, p: Policy, sel: Option<Selection>, f: Faults, g: Faults, after: World,
                            exit: Exit, d: Decision)
      reads this
    {
      var (checked, waits) :=
        Check(episode, SetOf(facts.attribution.missing), Some(facts.hasPotentialSpawners), false, now, window);
      && Episode() == (if cause.MissingDependencies? then checked else episode)
      && if cause.MissingDependencies? && waits then
           Untouched(w, after, exit) && d == Decision(GraceWaiting, false, [], None) && gapRounds == 0
         else if cause.IsGap() && rounds + 1 < gapMax then
           Untouched(w, after, exit) && d == Decision(GapRetrying, false, [], None) && gapRounds == rounds + 1
         else
           && (var batch := Split(w.mem.queue, TargetOf(facts, cause, cycle), ErrorOf(errors, cause));
               Condemned(w, p, sel, errors, batch, f, g, after, exit, d))
           && (exit == Returned ==> gapRounds == 0)
    }

    /** With an explained cause there is no gap retry: the arbiter waits out a window or condemns. */
    lemma ExplainedIsNotRetried(facts: StandstillFacts, cause: Cause, cycle: set<Uid>, episode: Grace, rounds: nat,
                                now: real, w: World, p: Policy, sel: Option<Selection>, f: Faults, g: Faults,
                                after: World, exit: Exit, d: Decision)
      requires Blaming(facts, cause, cycle, episode, rounds, now, w, p, sel, f, g, after, exit, d) && !cause.IsGap()
      ensures exit == Returned ==> d.action != GapRetrying && d.action != NoAction
    {
      if exit == Returned && d.action != GraceWaiting {
        var batch := Split(w.mem.queue, TargetOf(facts, cause, cycle), ErrorOf(errors, cause));
        ConvergedActs(w, p, sel, errors, batch, f, g, after, exit, d);
      }
    }

    /** The blamed uids, from the partition or from the cycle detector. */
    method Cycles(store: StateStore, partition: Option<Standstill>) returns (cycle: set<Uid>)
      requires store.Valid()
      requires if Selecting(store.selection) then Partitioned(store.state.View(), store.selection.value, partition)
               else partition == None
      ensures Informed(store.state.View(), store.selection, partition, cycle)
    {
      if Selecting(store.selection) {
        return if partition.Some? then SetOf(partition.value.cycles) else {};
      }
      var members: seq<Uid>;
      ghost var segments, states;
      members, segments, states := store.state.FindDependencyCycles(None);
      cycle := SetOf(members);
      assert members != [] ==> members[0] in cycle;
    }

    /** The reasons not to condemn yet: a grace window that is still open, or a gap that has not
        lasted long enough. */
    method Withhold(facts: StandstillFacts, store: StateStore, cause: Cause, now: real) returns (hold: Option<Decision>)
      requires store.Valid()
      modifies this
      ensures var (checked, waits) := Check(old(Episode()), SetOf(facts.attribution.missing),
                                            Some(facts.hasPotentialSpawners), false, now, window);
        && Episode() == (if cause.MissingDependencies? then checked else old(Episode()))
        && hold ==
          (if cause.MissingDependencies? && waits then Some(Decision(GraceWaiting, false, [], None))
           else if cause.IsGap() && old(gapRounds) + 1 < gapMax then Some(Decision(GapRetrying, false, [], None))
           else None)
      ensures hold.Some? ==> gapRounds == if cause.IsGap() then old(gapRounds) + 1 else 0
    {
      if cause.MissingDependencies? {
        var waits := CheckDependencyGrace(store.state, SetOf(facts.attribution.missing),
                                          Some(facts.hasPotentialSpawners), now);
        if waits {
          gapRounds := 0;
          return Some(Decision(GraceWaiting, false, [], None));
        }
      } else if cause.IsGap() {
        var escalated := CheckGapOrEscalate();
        if !escalated {
          return Some(Decision(GapRetrying, false, [], None));
        }
      }
      hold := None;
    }

    method ResolveDeadlock(facts: StandstillFacts, store: StateStore, partition: Option<Standstill>, cycle: set<Uid>,
                           now: real, f: Faults, g: Faults, ghost foreign: set<Uid>)
      returns (d: Decision, exit: Exit)
      requires store.Valid() && Mirrors(store.Now(), foreign, {})
      requires Informed(store.state.View(), store.selection, partition, cycle)
      modifies this, store.backend, store.state
      ensures store.Valid() && Mirrors(store.Now(), foreign, {})
      ensures Blaming(facts, CauseOf(facts, cycle != {}), cycle, old(Episode()), old(gapRounds), now, old(store.Now()),
                      store.policy, store.selection, f, g, store.Now(), exit, d)
      ensures BlamesRightly(facts, cycle, old(Episode()), old(gapRounds), now, old(store.Now()), store.policy,
                            store.selection, f, g, store.Now(), exit, d)
    {
      ghost var w, episode, rounds := store.Now(), Episode(), gapRounds;
      var cause := CauseOf(facts, cycle != {});
      var hold := Withhold(facts, store, cause, now);
      if hold.Some? {
        d, exit := hold.value, Returned;
        BlamingIsRight(facts, cycle, episode, rounds, now, w, store.policy, store.selection, f, g, w, exit, d);
        return;
      }
      var target := TargetOf(facts, cause, cycle);
      var batch := SplitDeadlockByUids(store.state.queue, target, ErrorOf(errors, cause));
      SplitUids(store.state.queue, target, ErrorOf(errors, cause));
      d, exit := Condemn(store, batch, f, g, foreign);
      BlamingIsRight(facts, cycle, episode, rounds, now, w, store.policy, store.selection, f, g,
                     store.Now(), exit, d);
    }

    /** Commit the condemnation; if the selection let nothing of it through, converge. */
    method Condemn(store: StateStore, batch: seq<(Uid, Meta)>, f: Faults, g: Faults, ghost foreign: set<Uid>)
      returns (d: Decision, exit: Exit)
      requires store.Valid() && Mirrors(store.Now(), foreign, {})
      requires BatchUids(batch) <= store.state.View().QueueUids()
      modifies this`gapRounds, store.backend, store.state
      ensures store.Valid() && Mirrors(store.Now(), foreign, {})
      ensures Condemned(old(store.Now()), store.policy, store.selection, errors, batch, f, g, store.Now(), exit, d)
      ensures exit == Returned ==> gapRounds == 0
    {
      var failed;
      exit, failed := store.ApplyBulkFailure(batch, f, foreign);
      d := NO_DECISION;
      if exit != Returned {
        return;
      }
      gapRounds := 0;
      if failed == [] && Selecting(store.selection) {
        d, exit := Converge(store, g, foreign);
        return;
      }
      d := Decision(Resolved, failed != [] && store.state.queue == [], failed, None);
    }

    method Converge(store: StateStore, g: Faults, ghost foreign: set<Uid>) returns (d: Decision, exit: Exit)
      requires store.Valid() && Mirrors(store.Now(), foreign, {}) && Selecting(store.selection)
      modifies store.backend, store.state
      ensures store.Valid() && Mirrors(store.Now(), foreign, {})
      ensures Converged(old(store.Now()), store.policy, store.selection, errors, g, store.Now(), exit, d)
    {
      ghost var w := store.Now();
      var s := Partition(store.state, store.selection.value);
      if OnlyBlocked(s) {
        d, exit := Decision(SelectionBlocked, true, [], s), Returned;
        assert ConvergedOn(w, store.policy, store.selection, errors, g, s, [], store.Now(), exit, d);
        return;
      }
      if s.Some? && s.value.stuck != {} {
        var uids := Listed(s.value.stuck);
        d, exit := CondemnStuck(store, s.value, uids, g, foreign);
        assert ConvergedOn(w, store.policy, store.selection, errors, g, s, uids, store.Now(), exit, d);
        return;
      }
      d, exit := Decision(Resolved, true, [], None), Returned;
      assert ConvergedOn(w, store.policy, store.selection, errors, g, s, [], store.Now(), exit, d);
    }

    method CondemnStuck(store: StateStore, ghost s: Standstill, uids: seq<Uid>, g: Faults, ghost foreign: set<Uid>)
      returns (d: Decision, exit: Exit)
      requires store.Valid() && Mirrors(store.Now(), foreign, {}) && store.selection.Some?
      requires Explains(store.state.View(), store.selection.value, s) && SetOf(uids) == s.stuck
      requires s.stuck != {} && !s.OnlyBlockedByExclusion()
      modifies store.backend, store.state
      ensures store.Valid() && Mirrors(store.Now(), foreign, {})
      ensures ConvergedOn(old(store.Now()), store.policy, store.selection, errors, g, Some(s), uids,
                          store.Now(), exit, d)
    {
      StuckIsQueued(store.state.View(), store.selection.value, s);
      BlamedUids(uids, errors.gap);
      var failed;
      exit, failed := store.ApplyBulkFailure(Blamed(uids, errors.gap), g, foreign);
      d := if failed != [] then Decision(Resolved, store.state.queue == [], failed, None)
           else Decision(Resolved, true, [], None);
    }
  }
}
