/** The read-only queue scan: one verdict per visited row, and the facts handed to
    arbitration when nothing can be dispatched. */
module Scheduler {
  import opened Jobs
  import opened State
  import opened Standstill

  datatype Wait = Finite(seconds: real) | Infinite

  /** The resource manager's answer for one job at the moment it is asked. */
  datatype Evaluation = Available | UnknownResource | ImpossibleAmount | Busy(wait: real)

  /** The scheduling projection of a parsed job. */
  datatype JobFacts = JobFacts(uid: Uid, taskType: TaskType, fields: Fields)

  function FactsOf(row: Row): JobFacts
    requires row.Job?
  {
    JobFacts(row.uid, row.taskType, row.fields)
  }

  function RawType(row: Row): Option<TaskType> {
    match row
    case Job(_, t, _, _, _, _) => Some(t)
    case Malformed(_, t, _, _, _, _) => t
  }

  function RawFields(row: Row): Option<Fields> {
    match row
    case Job(_, _, f, _, _, _) => Some(f)
    case Malformed(_, _, f, _, _, _) => f
  }

  datatype Verdict =
    | Unparseable
    | SelectedOut
    | FailedBy(dep: Uid)
    | MissingDependency
    | Waits
    | Unknown
    | Impossible
    | Unavailable(wait: real)
    | Runnable
  {
    /** The dependencies were no obstacle: the resource evaluation was reached. */
    predicate Evaluated() { Unknown? || Impossible? || Unavailable? || Runnable? }
  }

  datatype DepStatus = Active | Excused | Broken | Done | Parked | Absent

  /** Everything the scan reads besides the rows themselves. */
  datatype Context = Context(m: Mem, sel: Option<Selection>, inFlight: set<Uid>) {
    predicate Selecting() { sel.Some? && sel.value.IsActive() }

    predicate Admits(t: TaskType) { !Selecting() || sel.value.Allows(t) }

    /** Rows whose raw task type is selected out, malformed ones included. */
    function ExcludedUids(): set<Uid> {
      set r | r in m.queue && RawType(r).Some? && !Admits(RawType(r).value) :: r.uid
    }

    function Pending(): set<Uid> { m.QueueUids() + inFlight }

    function ActiveUids(): set<Uid> { Pending() - ExcludedUids() }

    /** Active work shadows history; then a trigger skip, a failure, a success; a uid that is
        only queued behind an exclusion is waited for; anything else is missing. */
    function StatusOf(d: Uid): DepStatus {
      if d in ActiveUids() then Active
      else if d in m.triggerSkipped then Excused
      else if d in m.failed then Broken
      else if d in m.successes then Done
      else if d in Pending() then Parked
      else Absent
    }

    predicate Has(deps: seq<Uid>, s: DepStatus) {
      exists i :: 0 <= i < |deps| && StatusOf(deps[i]) == s
    }

    function FirstBroken(deps: seq<Uid>): Option<Uid> {
      if deps == [] then None
      else if StatusOf(deps[0]) == Broken then Some(deps[0])
      else FirstBroken(deps[1..])
    }

    /** A failed dependency outranks a missing one, which outranks one still to come. */
    function Judge(facts: Option<JobFacts>, e: Evaluation): Verdict {
      if facts.None? then Unparseable
      else if !Admits(facts.value.taskType) then SelectedOut
      else
        var deps := facts.value.fields.deps;
        if FirstBroken(deps).Some? then FailedBy(FirstBroken(deps).value)
        else if Has(deps, Absent) then MissingDependency
        else if Has(deps, Active) || Has(deps, Parked) then Waits
        else match e
          case UnknownResource => Unknown
          case ImpossibleAmount => Impossible
          case Busy(w) => Unavailable(w)
          case Available => Runnable
    }
  }

  lemma FirstBrokenMeans(c: Context, deps: seq<Uid>)
    ensures c.FirstBroken(deps).Some? <==> c.Has(deps, Broken)
  {
    if deps != [] {
      FirstBrokenMeans(c, deps[1..]);
      if c.Has(deps, Broken) && c.StatusOf(deps[0]) != Broken {
        var i :| 0 <= i < |deps| && c.StatusOf(deps[i]) == Broken;
        assert deps[1..][i - 1] == deps[i];
      }
      if c.Has(deps[1..], Broken) {
        var i :| 0 <= i < |deps[1..]| && c.StatusOf(deps[1..][i]) == Broken;
        assert deps[i + 1] == deps[1..][i];
      }
    }
  }

  // ---- what a verdict means ----

  ghost predicate QueuedAs(c: Context, u: Uid) {
    exists i :: 0 <= i < |c.m.queue| && c.m.queue[i].uid == u
  }

  /** A queued row of this uid has a task type that a rule names. */
  ghost predicate HeldBack(c: Context, u: Uid) {
    exists i :: 0 <= i < |c.m.queue| && c.m.queue[i].uid == u &&
      RawType(c.m.queue[i]).Some? && Named(c.sel, RawType(c.m.queue[i]).value)
  }

  /** Queued or running, and not held back: history does not count for it. */
  ghost predicate StillToRun(c: Context, d: Uid) {
    (QueuedAs(c, d) || d in c.inFlight) && !HeldBack(c, d)
  }

  ghost predicate HasFailed(c: Context, d: Uid) {
    !StillToRun(c, d) && d !in c.m.triggerSkipped && d in c.m.failed
  }

  ghost predicate IsMet(c: Context, d: Uid) {
    !StillToRun(c, d) && (d in c.m.triggerSkipped || (d in c.m.successes && d !in c.m.failed))
  }

  ghost predicate IsNowhere(c: Context, d: Uid) {
    && !QueuedAs(c, d) && d !in c.inFlight
    && d !in c.m.triggerSkipped && d !in c.m.successes && d !in c.m.failed
  }

  ghost predicate Admitted(c: Context, facts: Option<JobFacts>) {
    facts.Some? && !Named(c.sel, facts.value.taskType)
  }

  ghost predicate NoneFailed(c: Context, deps: seq<Uid>) { forall d :: d in deps ==> !HasFailed(c, d) }

  /** Only its resources are still in question. */
  ghost predicate Free(c: Context, facts: Option<JobFacts>) {
    Admitted(c, facts) && forall d :: d in facts.value.fields.deps ==> IsMet(c, d)
  }

  ghost predicate FirstFailed(c: Context, deps: seq<Uid>, d: Uid) {
    exists i :: 0 <= i < |deps| && deps[i] == d && HasFailed(c, d) && forall j :: 0 <= j < i ==> !HasFailed(c, deps[j])
  }

  /** The verdict in terms of rules, queue, records and the resource answer. */
  ghost predicate Means(c: Context, facts: Option<JobFacts>, e: Evaluation, v: Verdict) {
    match v
    case Unparseable => facts.None?
    case SelectedOut => facts.Some? && !Admitted(c, facts)
    case FailedBy(d) => Admitted(c, facts) && FirstFailed(c, facts.value.fields.deps, d)
    case MissingDependency =>
      && Admitted(c, facts) && NoneFailed(c, facts.value.fields.deps)
      && exists d :: d in facts.value.fields.deps && IsNowhere(c, d)
    case Waits =>
      && Admitted(c, facts) && NoneFailed(c, facts.value.fields.deps) && !Free(c, facts)
      && forall d :: d in facts.value.fields.deps ==> !IsNowhere(c, d)
    case Unknown => Free(c, facts) && e == UnknownResource
    case Impossible => Free(c, facts) && e == ImpossibleAmount
    case Unavailable(w) => Free(c, facts) && e == Busy(w)
    case Runnable => Free(c, facts) && e == Available
  }

  lemma AdmitsMeans(c: Context, t: TaskType)
    ensures c.Admits(t) <==> !Named(c.sel, t)
  {
    if c.sel.Some? {
      RulesDecide(c.sel.value, t);
    }
  }

  lemma StatusMeans(c: Context, d: Uid)
    ensures c.StatusOf(d) == Active <==> StillToRun(c, d)
    ensures c.StatusOf(d) == Broken <==> HasFailed(c, d)
    ensures c.StatusOf(d) == Excused || c.StatusOf(d) == Done <==> IsMet(c, d)
    ensures c.StatusOf(d) == Absent <==> IsNowhere(c, d)
  {
    if d in c.m.QueueUids() {
      var r :| r in c.m.queue && r.uid == d;
    }
    if d in c.ExcludedUids() {
      var r :| r in c.m.queue && RawType(r).Some? && !c.Admits(RawType(r).value) && r.uid == d;
      AdmitsMeans(c, RawType(r).value);
    }
    if HeldBack(c, d) {
      var i :| 0 <= i < |c.m.queue| && c.m.queue[i].uid == d &&
        RawType(c.m.queue[i]).Some? && Named(c.sel, RawType(c.m.queue[i]).value);
      AdmitsMeans(c, RawType(c.m.queue[i]).value);
      assert c.m.queue[i] in c.m.queue;
    }
  }

  lemma FirstBrokenIsFirst(c: Context, deps: seq<Uid>, d: Uid)
    ensures c.FirstBroken(deps) == Some(d) <==> FirstFailed(c, deps, d)
  {
    if deps != [] {
      StatusMeans(c, deps[0]);
      if HasFailed(c, deps[0]) {
        assert FirstFailed(c, deps, deps[0]);
      } else {
        FirstBrokenIsFirst(c, deps[1..], d);
        FirstFailedShifts(c, deps, d);
      }
    }
  }

  lemma NoneBroken(c: Context, deps: seq<Uid>)
    ensures c.FirstBroken(deps) == None <==> NoneFailed(c, deps)
  {
    if deps != [] {
      StatusMeans(c, deps[0]);
      NoneBroken(c, deps[1..]);
      assert deps == [deps[0]] + deps[1..];
    }
  }

  lemma FirstFailedShifts(c: Context, deps: seq<Uid>, d: Uid)
    requires deps != [] && !HasFailed(c, deps[0])
    ensures FirstFailed(c, deps, d) <==> FirstFailed(c, deps[1..], d)
  {
  }

  lemma HasMeans(c: Context, deps: seq<Uid>)
    ensures c.Has(deps, Absent) <==> exists d :: d in deps && IsNowhere(c, d)
    ensures NoneFailed(c, deps) && !c.Has(deps, Absent) ==>
      (c.Has(deps, Active) || c.Has(deps, Parked) <==> exists d :: d in deps && !IsMet(c, d))
  {
    forall d ensures c.StatusOf(d) == Absent <==> IsNowhere(c, d)
      ensures c.StatusOf(d) in {Active, Parked} <==> !IsMet(c, d) && !HasFailed(c, d) && !IsNowhere(c, d)
    {
      StatusMeans(c, d);
    }
  }

  lemma JudgeMeans(c: Context, facts: Option<JobFacts>, e: Evaluation, v: Verdict)
    ensures c.Judge(facts, e) == v <==> Means(c, facts, e, v)
  {
    if facts.Some? {
      var deps := facts.value.fields.deps;
      AdmitsMeans(c, facts.value.taskType);
      NoneBroken(c, deps);
      HasMeans(c, deps);
      if c.FirstBroken(deps).Some? {
        FirstBrokenIsFirst(c, deps, c.FirstBroken(deps).value);
        BrokenIsNotFree(c, deps);
      }
      if v.FailedBy? {
        FirstBrokenIsFirst(c, deps, v.dep);
      }
    }
  }

  lemma BrokenIsNotFree(c: Context, deps: seq<Uid>)
    requires !NoneFailed(c, deps)
    ensures exists d :: d in deps && !IsMet(c, d)
  {
  }

  datatype Attribution = Attribution(unknown: seq<Uid>, missing: seq<Uid>, malformed: seq<Uid>, impossible: seq<Uid>) {
    predicate HasCauses() { unknown != [] || missing != [] || malformed != [] || impossible != [] }
  }

  datatype StandstillFacts = StandstillFacts(minWait: Wait, waitingForDependency: bool, hasPotentialSpawners: bool,
                                             attribution: Attribution)

  datatype Kind = RunnableKind | DepFailedKind | NoneKind

  datatype ScheduleResult = ScheduleResult(index: Option<nat>, depFailure: Option<Uid>, kind: Kind,
                                           facts: StandstillFacts)

  /** One evaluated row of a scan. */
  datatype Visit = Visit(index: nat, facts: Option<JobFacts>, verdict: Verdict)

  ghost predicate Occurs(visits: seq<Visit>, v: Verdict) {
    exists k :: 0 <= k < |visits| && visits[k].verdict == v
  }

  /** `uids` lists exactly the uids of the visited rows with verdict `v`. */
  ghost predicate Lists(queue: seq<Row>, visits: seq<Visit>, v: Verdict, uids: seq<Uid>)
    requires forall k :: 0 <= k < |visits| ==> visits[k].index < |queue|
  {
    forall u :: u in uids <==>
      exists k :: 0 <= k < |visits| && visits[k].verdict == v && queue[visits[k].index].uid == u
  }

  /** The scan visited `order` up to the first runnable row and judged each row truthfully. */
  ghost predicate Visited(c: Context, order: seq<nat>, evals: seq<Evaluation>, visits: seq<Visit>)
    requires |evals| == |c.m.queue| && forall k :: 0 <= k < |order| ==> order[k] < |c.m.queue|
  {
    && |visits| <= |order|
    && (forall k :: 0 <= k < |visits| ==>
          && visits[k].index == order[k]
          && visits[k].verdict == c.Judge(visits[k].facts, evals[order[k]])
          && (c.m.queue[order[k]].Job? ==> visits[k].facts == Some(FactsOf(c.m.queue[order[k]]))))
    && (forall k :: 0 <= k < |visits| - 1 ==> visits[k].verdict != Runnable)
    && (|visits| < |order| ==> visits != [] && visits[|visits| - 1].verdict == Runnable)
  }

  predicate Stopped(visits: seq<Visit>) {
    visits != [] && visits[|visits| - 1].verdict == Runnable
  }

  lemma VisitedAppend(c: Context, order: seq<nat>, evals: seq<Evaluation>, visits: seq<Visit>, x: Visit)
    requires |evals| == |c.m.queue| && forall k :: 0 <= k < |order| ==> order[k] < |c.m.queue|
    requires |visits| < |order| && Visited(c, order[..|visits|], evals, visits) && !Stopped(visits)
    requires x.index == order[|visits|] && x.verdict == c.Judge(x.facts, evals[x.index])
    requires c.m.queue[x.index].Job? ==> x.facts == Some(FactsOf(c.m.queue[x.index]))
    ensures Visited(c, order[..|visits| + 1], evals, visits + [x])
    ensures Stopped(visits + [x]) <==> x.verdict == Runnable
  {
    var after := visits + [x];
    forall k | 0 <= k < |after|
      ensures after[k].index == order[k] && after[k].verdict == c.Judge(after[k].facts, evals[order[k]])
      ensures c.m.queue[order[k]].Job? ==> after[k].facts == Some(FactsOf(c.m.queue[order[k]]))
    {
      if k < |visits| {
        assert after[k] == visits[k] && order[..|visits|][k] == order[k];
      }
    }
  }

  lemma VisitedDone(c: Context, order: seq<nat>, evals: seq<Evaluation>, visits: seq<Visit>)
    requires |evals| == |c.m.queue| && forall k :: 0 <= k < |order| ==> order[k] < |c.m.queue|
    requires |visits| <= |order| && Visited(c, order[..|visits|], evals, visits)
    requires Stopped(visits) || |visits| == |order|
    ensures Visited(c, order, evals, visits)
  {
    forall k | 0 <= k < |visits| ensures order[..|visits|][k] == order[k] {
    }
  }

  /** The smallest wait among the visited rows that only lack capacity; none when a cause that
      no wait can cure was met. */
  ghost predicate SmallestWait(visits: seq<Visit>, a: Attribution, w: Wait) {
    if a.HasCauses() then w == Infinite else MinimalWait(visits, w)
  }

  /** The dispatch choice: a runnable row if the scan met one, else the first row with a failed
      dependency, else nothing. */
  ghost predicate Chosen(visits: seq<Visit>, r: ScheduleResult) {
    if Stopped(visits)
    then r.kind == RunnableKind && r.index == Some(visits[|visits| - 1].index) && r.depFailure == None
    else if exists k :: 0 <= k < |visits| && visits[k].verdict.FailedBy?
    then r.kind == DepFailedKind && exists k :: (0 <= k < |visits| && visits[k].verdict.FailedBy? &&
           (forall j :: 0 <= j < k ==> !visits[j].verdict.FailedBy?) &&
           r.index == Some(visits[k].index) && r.depFailure == Some(visits[k].verdict.dep))
    else r.kind == NoneKind && r.index == None && r.depFailure == None
  }

  ghost predicate Reports(c: Context, visits: seq<Visit>, f: StandstillFacts)
    requires forall k :: 0 <= k < |visits| ==> visits[k].index < |c.m.queue|
  {
    && Lists(c.m.queue, visits, Unparseable, f.attribution.malformed)
    && Lists(c.m.queue, visits, Unknown, f.attribution.unknown)
    && Lists(c.m.queue, visits, MissingDependency, f.attribution.missing)
    && Lists(c.m.queue, visits, Impossible, f.attribution.impossible)
    && (f.waitingForDependency <==> Occurs(visits, MissingDependency) || Occurs(visits, Waits))
    && (f.hasPotentialSpawners <==>
          exists k :: 0 <= k < |visits| && visits[k].verdict.Evaluated())
    && SmallestWait(visits, f.attribution, f.minWait)
  }

  // ---- what a scan means ----

  /** The verdict `v` is the right one for visit `k`. */
  ghost predicate MeansAt(c: Context, evals: seq<Evaluation>, visits: seq<Visit>, k: int, v: Verdict) {
    0 <= k < |visits| && visits[k].index < |evals| && Means(c, visits[k].facts, evals[visits[k].index], v)
  }

  /** `uids` are those of the visited rows for which `v` is right. */
  ghost predicate Collects(c: Context, evals: seq<Evaluation>, visits: seq<Visit>, v: Verdict, uids: seq<Uid>) {
    forall u :: u in uids <==> exists k ::
      MeansAt(c, evals, visits, k, v) && visits[k].index < |c.m.queue| && c.m.queue[visits[k].index].uid == u
  }

  /** The rows are visited in the given order, jobs as they are. */
  ghost predicate Follows(c: Context, order: seq<nat>, visits: seq<Visit>) {
    |visits| <= |order| && forall k :: 0 <= k < |visits| ==>
      && visits[k].index == order[k] < |c.m.queue|
      && (c.m.queue[order[k]].Job? ==> visits[k].facts == Some(FactsOf(c.m.queue[order[k]])))
  }

  /** The scan stops at the first row that may run, and chooses it. If there is none, the choice is the
      first row with a failed dependency, if any. */
  ghost predicate Chooses(c: Context, evals: seq<Evaluation>, n: nat, visits: seq<Visit>, r: ScheduleResult) {
    && (forall k :: 0 <= k < |visits| - 1 ==> !MeansAt(c, evals, visits, k, Runnable))
    && if MeansAt(c, evals, visits, |visits| - 1, Runnable) then
         r.kind == RunnableKind && r.index == Some(visits[|visits| - 1].index) && r.depFailure == None
       else
         && |visits| == n
         && (r.kind == NoneKind ==>
               r.index == None && r.depFailure == None && forall k, d :: !MeansAt(c, evals, visits, k, FailedBy(d)))
         && (r.kind == DepFailedKind ==> exists k, d ::
               && MeansAt(c, evals, visits, k, FailedBy(d))
               && r.index == Some(visits[k].index) && r.depFailure == Some(d)
               && forall j, x :: MeansAt(c, evals, visits, j, FailedBy(x)) ==> k <= j)
         && r.kind != RunnableKind
  }

  /** What the scan reports to arbitration. */
  ghost predicate Tells(c: Context, evals: seq<Evaluation>, visits: seq<Visit>, f: StandstillFacts) {
    var a := f.attribution;
    && Collects(c, evals, visits, Unparseable, a.malformed) && Collects(c, evals, visits, Unknown, a.unknown)
    && Collects(c, evals, visits, MissingDependency, a.missing) && Collects(c, evals, visits, Impossible, a.impossible)
    && (f.waitingForDependency <==>
          exists k :: MeansAt(c, evals, visits, k, MissingDependency) || MeansAt(c, evals, visits, k, Waits))
    && (f.hasPotentialSpawners <==> exists k :: 0 <= k < |visits| && Free(c, visits[k].facts))
    && if a.malformed != [] || a.unknown != [] || a.missing != [] || a.impossible != [] then f.minWait == Infinite
       else
         && (forall k, w :: MeansAt(c, evals, visits, k, Unavailable(w)) ==>
               f.minWait.Finite? && f.minWait.seconds <= w)
         && (f.minWait.Finite? ==> exists k :: MeansAt(c, evals, visits, k, Unavailable(f.minWait.seconds)))
  }

  /** Choice and facts of a scan follow from rules, queue, records and resource answers alone. */
  lemma ScanMeans(c: Context, order: seq<nat>, evals: seq<Evaluation>, visits: seq<Visit>, r: ScheduleResult)
    requires |evals| == |c.m.queue| && forall k :: 0 <= k < |order| ==> order[k] < |c.m.queue|
    requires Visited(c, order, evals, visits) && Chosen(visits, r) && Reports(c, visits, r.facts)
    ensures Follows(c, order, visits) && Chooses(c, evals, |order|, visits, r) && Tells(c, evals, visits, r.facts)
  {
    VerdictsMean(c, order, evals, visits);
    ChoiceMeans(c, order, evals, visits, r);
    ReportMeans(c, evals, visits, r.facts);
  }

  lemma VerdictsMean(c: Context, order: seq<nat>, evals: seq<Evaluation>, visits: seq<Visit>)
    requires |evals| == |c.m.queue| && forall k :: 0 <= k < |order| ==> order[k] < |c.m.queue|
    requires Visited(c, order, evals, visits)
    ensures Follows(c, order, visits) && Judged(c, evals, visits)
  {
    forall k, v ensures MeansAt(c, evals, visits, k, v) <==> 0 <= k < |visits| && visits[k].verdict == v {
      if 0 <= k < |visits| {
        JudgeMeans(c, visits[k].facts, evals[order[k]], v);
      }
    }
  }

  /** Every verdict given is the right one. */
  ghost predicate Judged(c: Context, evals: seq<Evaluation>, visits: seq<Visit>) {
    && (forall k :: 0 <= k < |visits| ==> visits[k].index < |evals|)
    && forall k, v :: MeansAt(c, evals, visits, k, v) <==> 0 <= k < |visits| && visits[k].verdict == v
  }

  lemma ChoiceMeans(c: Context, order: seq<nat>, evals: seq<Evaluation>, visits: seq<Visit>, r: ScheduleResult)
    requires |evals| == |c.m.queue| && forall k :: 0 <= k < |order| ==> order[k] < |c.m.queue|
    requires Visited(c, order, evals, visits) && Chosen(visits, r) && Judged(c, evals, visits)
    ensures Chooses(c, evals, |order|, visits, r)
  {
    if !Stopped(visits) {
      if k :| 0 <= k < |visits| && visits[k].verdict.FailedBy? &&
             (forall j :: 0 <= j < k ==> !visits[j].verdict.FailedBy?) &&
             r.index == Some(visits[k].index) && r.depFailure == Some(visits[k].verdict.dep)
      {
        assert MeansAt(c, evals, visits, k, FailedBy(visits[k].verdict.dep));
      }
    }
  }

  lemma ReportMeans(c: Context, evals: seq<Evaluation>, visits: seq<Visit>, f: StandstillFacts)
    requires Judged(c, evals, visits) && |evals| == |c.m.queue| && Reports(c, visits, f)
    ensures Tells(c, evals, visits, f)
  {
    SpawnersAreFree(c, evals, visits);
    WaitsMean(c, evals, visits, f);
    ListsCollect(c, evals, visits, Unparseable, f.attribution.malformed);
    ListsCollect(c, evals, visits, Unknown, f.attribution.unknown);
    ListsCollect(c, evals, visits, MissingDependency, f.attribution.missing);
    ListsCollect(c, evals, visits, Impossible, f.attribution.impossible);
  }

  lemma SpawnersAreFree(c: Context, evals: seq<Evaluation>, visits: seq<Visit>)
    requires Judged(c, evals, visits)
    ensures forall k :: 0 <= k < |visits| ==> (visits[k].verdict.Evaluated() <==> Free(c, visits[k].facts))
  {
    forall k | 0 <= k < |visits| ensures visits[k].verdict.Evaluated() <==> Free(c, visits[k].facts) {
      var v := visits[k].verdict;
      assert MeansAt(c, evals, visits, k, v);
      if !v.Evaluated() {
        UnevaluatedIsNotFree(c, visits[k].facts, evals[visits[k].index], v);
      }
    }
  }

  lemma WaitsMean(c: Context, evals: seq<Evaluation>, visits: seq<Visit>, f: StandstillFacts)
    requires Judged(c, evals, visits) && |evals| == |c.m.queue| && Reports(c, visits, f)
    ensures f.waitingForDependency <==>
      exists k :: MeansAt(c, evals, visits, k, MissingDependency) || MeansAt(c, evals, visits, k, Waits)
    ensures !f.attribution.HasCauses() ==>
      && (forall k, w :: MeansAt(c, evals, visits, k, Unavailable(w)) ==> f.minWait.Finite? && f.minWait.seconds <= w)
      && (f.minWait.Finite? ==> exists k :: MeansAt(c, evals, visits, k, Unavailable(f.minWait.seconds)))
  {
    OccursMeans(c, evals, visits, MissingDependency);
    OccursMeans(c, evals, visits, Waits);
    if f.minWait.Finite? {
      OccursMeans(c, evals, visits, Unavailable(f.minWait.seconds));
    }
  }

  lemma OccursMeans(c: Context, evals: seq<Evaluation>, visits: seq<Visit>, v: Verdict)
    requires Judged(c, evals, visits)
    ensures Occurs(visits, v) <==> exists k :: MeansAt(c, evals, visits, k, v)
  {
    if Occurs(visits, v) {
      var k :| 0 <= k < |visits| && visits[k].verdict == v;
      assert MeansAt(c, evals, visits, k, v);
    }
  }

  lemma UnevaluatedIsNotFree(c: Context, facts: Option<JobFacts>, e: Evaluation, v: Verdict)
    requires Means(c, facts, e, v) && !v.Evaluated()
    ensures !Free(c, facts)
  {
    if v.FailedBy? {
      assert v.dep in facts.value.fields.deps && !IsMet(c, v.dep);
    } else if v.MissingDependency? {
      var d :| d in facts.value.fields.deps && IsNowhere(c, d);
      assert !IsMet(c, d);
    }
  }

  lemma ListsCollect(c: Context, evals: seq<Evaluation>, visits: seq<Visit>, v: Verdict, uids: seq<Uid>)
    requires Judged(c, evals, visits) && |evals| == |c.m.queue| && Lists(c.m.queue, visits, v, uids)
    ensures Collects(c, evals, visits, v, uids)
  {
    forall u ensures u in uids <==> exists k ::
      MeansAt(c, evals, visits, k, v) && visits[k].index < |c.m.queue| && c.m.queue[visits[k].index].uid == u
    {
      if u in uids {
        var k :| 0 <= k < |visits| && visits[k].verdict == v && c.m.queue[visits[k].index].uid == u;
        assert MeansAt(c, evals, visits, k, v);
      }
    }
  }

  // ---- running tallies of the loop ----

  /** The smallest wait so far, ignoring rows with an unknown resource. */
  ghost predicate MinimalWait(visits: seq<Visit>, w: Wait) {
    && (w == Infinite <==> forall k :: 0 <= k < |visits| ==> !visits[k].verdict.Unavailable?)
    && (w.Finite? ==> Occurs(visits, Unavailable(w.seconds)))
    && (forall k :: 0 <= k < |visits| && visits[k].verdict.Unavailable? ==>
        w.Finite? && w.seconds <= visits[k].verdict.wait)
  }

  /** The accumulators of the scan loop. */
  datatype Tally = Tally(a: Attribution, waiting: bool, spawners: bool, minWait: Wait,
                         depFailure: Option<Uid>, depFailedIndex: Option<nat>)
  {
    /** One more row, with uid `u`, judged. An unknown resource resets the wait. */
    function Note(u: Uid, x: Visit): Tally {
      match x.verdict
      case Unparseable => this.(a := a.(malformed := a.malformed + [u]))
      case SelectedOut => this
      case FailedBy(d) =>
        if depFailure.None? then this.(depFailure := Some(d), depFailedIndex := Some(x.index)) else this
      case MissingDependency => this.(a := a.(missing := a.missing + [u]), waiting := true)
      case Waits => this.(waiting := true)
      case Unknown => this.(a := a.(unknown := a.unknown + [u]), spawners := true, minWait := Infinite)
      case Impossible => this.(a := a.(impossible := a.impossible + [u]), spawners := true)
      case Unavailable(w) => this.(spawners := true, minWait := Smaller(minWait, w))
      case Runnable => this.(spawners := true)
    }

    /** The first failed-dependency row is only a fallback, and a runnable row drops it. Causes
        that no wait can cure force the wait to infinity. */
    function Result(index: Option<nat>): ScheduleResult {
      ScheduleResult(
        if index.Some? then index else depFailedIndex,
        if index.Some? then None else depFailure,
        if index.Some? then RunnableKind else if depFailure.Some? then DepFailedKind else NoneKind,
        StandstillFacts(if a.HasCauses() then Infinite else minWait, waiting, spawners, a))
    }
  }

  lemma TallyMeans(c: Context, visits: seq<Visit>, t: Tally, index: Option<nat>)
    requires forall k :: 0 <= k < |visits| ==> visits[k].index < |c.m.queue|
    requires Tallied(c, visits, t)
    requires if Stopped(visits) then index == Some(visits[|visits| - 1].index) else index == None
    ensures Chosen(visits, t.Result(index)) && Reports(c, visits, t.Result(index).facts)
  {
  }

  ghost predicate Tallied(c: Context, visits: seq<Visit>, t: Tally)
    requires forall k :: 0 <= k < |visits| ==> visits[k].index < |c.m.queue|
  {
    && Lists(c.m.queue, visits, Unparseable, t.a.malformed)
    && Lists(c.m.queue, visits, Unknown, t.a.unknown)
    && Lists(c.m.queue, visits, MissingDependency, t.a.missing)
    && Lists(c.m.queue, visits, Impossible, t.a.impossible)
    && (t.waiting <==> Occurs(visits, MissingDependency) || Occurs(visits, Waits))
    && (t.spawners <==> exists k :: 0 <= k < |visits| && visits[k].verdict.Evaluated())
    && (t.a.unknown == [] ==> MinimalWait(visits, t.minWait))
    && FirstFailure(visits, t.depFailedIndex, t.depFailure)
  }

  ghost predicate FirstFailure(visits: seq<Visit>, at: Option<nat>, dep: Option<Uid>) {
    if exists k :: 0 <= k < |visits| && visits[k].verdict.FailedBy?
    then exists k :: (0 <= k < |visits| && visits[k].verdict.FailedBy? &&
           (forall j :: 0 <= j < k ==> !visits[j].verdict.FailedBy?) &&
           at == Some(visits[k].index) && dep == Some(visits[k].verdict.dep))
    else at == None && dep == None
  }

  lemma ListsAppend(queue: seq<Row>, visits: seq<Visit>, x: Visit, v: Verdict, uids: seq<Uid>)
    requires forall k :: 0 <= k < |visits| ==> visits[k].index < |queue|
    requires x.index < |queue| && Lists(queue, visits, v, uids)
    ensures Lists(queue, visits + [x], v, if x.verdict == v then uids + [queue[x.index].uid] else uids)
  {
    var after := visits + [x];
    var uids' := if x.verdict == v then uids + [queue[x.index].uid] else uids;
    forall u ensures u in uids' <==>
      exists k :: 0 <= k < |after| && after[k].verdict == v && queue[after[k].index].uid == u
    {
      if u in uids {
        var k :| 0 <= k < |visits| && visits[k].verdict == v && queue[visits[k].index].uid == u;
        assert after[k] == visits[k];
      }
      assert after[|visits|] == x;
    }
  }

  lemma SomeAppend(visits: seq<Visit>, x: Visit)
    ensures forall v :: Occurs(visits + [x], v) <==> Occurs(visits, v) || x.verdict == v
    ensures (exists k :: 0 <= k < |visits + [x]| && (visits + [x])[k].verdict.Evaluated()) <==>
      (exists k :: 0 <= k < |visits| && visits[k].verdict.Evaluated()) || x.verdict.Evaluated()
  {
    var after := visits + [x];
    assert after[|visits|] == x;
    assert forall k :: 0 <= k < |visits| ==> after[k] == visits[k];
    forall v ensures Occurs(after, v) <==> Occurs(visits, v) || x.verdict == v {
      if Occurs(visits, v) {
        var k :| 0 <= k < |visits| && visits[k].verdict == v;
        assert after[k].verdict == v;
      }
    }
    if k :| 0 <= k < |visits| && visits[k].verdict.Evaluated() {
      assert after[k].verdict.Evaluated();
    }
  }

  lemma TallyAppend(c: Context, visits: seq<Visit>, x: Visit, t: Tally)
    requires forall k :: 0 <= k < |visits| ==> visits[k].index < |c.m.queue|
    requires x.index < |c.m.queue| && Tallied(c, visits, t)
    ensures Tallied(c, visits + [x], t.Note(c.m.queue[x.index].uid, x))
  {
    ListsAppend(c.m.queue, visits, x, Unparseable, t.a.malformed);
    ListsAppend(c.m.queue, visits, x, Unknown, t.a.unknown);
    ListsAppend(c.m.queue, visits, x, MissingDependency, t.a.missing);
    ListsAppend(c.m.queue, visits, x, Impossible, t.a.impossible);
    SomeAppend(visits, x);
    FirstFailureAppend(visits, x, t.depFailedIndex, t.depFailure);
    if t.a.unknown == [] {
      MinimalWaitAppend(visits, x, t.minWait);
    }
  }

  lemma MinimalWaitAppend(visits: seq<Visit>, x: Visit, w: Wait)
    requires MinimalWait(visits, w)
    ensures MinimalWait(visits + [x], if x.verdict.Unavailable? then Smaller(w, x.verdict.wait) else w)
  {
    var after := visits + [x];
    SomeAppend(visits, x);
    assert after[|visits|] == x;
    assert forall k :: 0 <= k < |visits| ==> after[k] == visits[k];
  }

  lemma FirstFailureAppend(visits: seq<Visit>, x: Visit, at: Option<nat>, dep: Option<Uid>)
    requires FirstFailure(visits, at, dep)
    ensures dep.None? && x.verdict.FailedBy? ==> FirstFailure(visits + [x], Some(x.index), Some(x.verdict.dep))
    ensures dep.Some? || !x.verdict.FailedBy? ==> FirstFailure(visits + [x], at, dep)
  {
    var after := visits + [x];
    assert after[|visits|] == x;
    assert forall k :: 0 <= k < |visits| ==> after[k] == visits[k];
    if k :| 0 <= k < |visits| && visits[k].verdict.FailedBy? &&
           (forall j :: 0 <= j < k ==> !visits[j].verdict.FailedBy?) &&
           at == Some(visits[k].index) && dep == Some(visits[k].verdict.dep)
    {
      assert after[k].verdict.FailedBy?;
    } else {
      assert forall k :: 0 <= k < |visits| ==> !visits[k].verdict.FailedBy?;
    }
  }

  /** No unparseable row was answered for by the cache. */
  ghost predicate Unmasked(queue: seq<Row>, visits: seq<Visit>) {
    forall k :: 0 <= k < |visits| && visits[k].index < |queue| && queue[visits[k].index].Malformed? ==>
      visits[k].facts == None
  }

  /** The scan loop between two rows. */
  ghost predicate Scanning(c: Context, order: seq<nat>, evals: seq<Evaluation>, visits: seq<Visit>, t: Tally,
                           index: Option<nat>)
    requires |evals| == |c.m.queue| && forall k :: 0 <= k < |order| ==> order[k] < |c.m.queue|
  {
    && |visits| <= |order| && Visited(c, order[..|visits|], evals, visits) && Tallied(c, visits, t)
    && index == if Stopped(visits) then Some(visits[|visits| - 1].index) else None
  }

  const CACHE_MAX := 100000

  class JobScheduler {
    const selection: Option<Selection>
    var cache: map<(TaskType, Uid), JobFacts>

    constructor (sel: Option<Selection>)
      ensures Valid() && selection == sel && cache == map[]
    {
      selection := sel;
      cache := map[];
    }

    ghost predicate Valid()
      reads this
    {
      forall k :: k in cache ==> cache[k].taskType == k.0 && cache[k].uid == k.1
    }

    /** No unparseable row of the queue has its key in the cache. */
    ghost predicate Clean(queue: seq<Row>)
      reads this
    {
      forall row :: row in queue && row.Malformed? && row.rawType.Some? ==> (row.rawType.value, row.uid) !in cache
    }

    /** The cache could answer for this unparseable row: an earlier well-formed snapshot with
        the same key and the same scheduling fields is remembered. */
    ghost predicate Masks(row: Row)
      reads this
    {
      && row.Malformed? && row.rawType.Some? && (row.rawType.value, row.uid) in cache
      && row.raw == Some(cache[(row.rawType.value, row.uid)].fields)
    }

    method BeginRound()
      modifies this`cache
      ensures Valid() && cache == map[]
    {
      cache := map[];
    }

    /** The cached projection is indistinguishable from a fresh parse on every row that parses;
        an unparseable row is only ever answered for by a remembered twin. */
    method CachedJob(row: Row, ghost queue: seq<Row>) returns (facts: Option<JobFacts>)
      requires Valid()
      modifies this`cache
      ensures Valid()
      ensures row.Job? ==> facts == Some(FactsOf(row))
      ensures row.Malformed? ==> cache == old(cache) && (facts.Some? <==> Masks(row))
      ensures facts.Some? ==> facts.value.uid == row.uid
      ensures facts.Some? ==> RawType(row).Some?
      ensures facts.Some? ==> var key := (RawType(row).value, row.uid); key in cache && cache[key] == facts.value
      ensures old(Clean(queue)) && DistinctUids(queue) && row in queue ==>
        Clean(queue) && (row.Malformed? ==> facts == None)
    {
      var t := RawType(row);
      if t.None? {
        return None;
      }
      var key := (t.value, row.uid);
      if key in cache && RawFields(row) == Some(cache[key].fields) {
        return Some(cache[key]);
      }
      if row.Malformed? {
        return None;
      }
      facts := Some(FactsOf(row));
      if |cache| >= CACHE_MAX {
        cache := map[];
      }
      cache := cache[key := facts.value];
    }

    /** Masking does happen: a well-formed snapshot, then one that no longer parses but has the same
        key and the same scheduling fields; the cache answers for the second with the first. */
    method TwinMasks(twin: Row, row: Row) returns (facts: Option<JobFacts>)
      requires twin.Job? && row.Malformed? && row.uid == twin.uid && row.rawType == Some(twin.taskType) &&
        row.raw == Some(twin.fields)
      modifies this`cache
      ensures facts == Some(FactsOf(twin))
    {
      BeginRound();
      facts := CachedJob(twin, [twin]);
      facts := CachedJob(row, [row]);
    }

    /** Visit the queue in `order`, stop at the first runnable row; acquire nothing. `evals[i]`
        is what the resource manager answers for row `i` during this scan. */
    method ScanNextRunnable(state: PipelineState, inFlight: set<Uid>, order: seq<nat>, evals: seq<Evaluation>)
      returns (r: ScheduleResult, ghost visits: seq<Visit>)
      requires Valid() && state.Valid()
      requires |evals| == |state.queue| && forall k :: 0 <= k < |order| ==> order[k] < |state.queue|
      modifies this`cache
      ensures Valid()
      ensures var c := Context(state.View(), selection, inFlight);
        Visited(c, order, evals, visits) && Chosen(visits, r) && Reports(c, visits, r.facts)
      ensures var c := Context(state.View(), selection, inFlight);
        Follows(c, order, visits) && Chooses(c, evals, |order|, visits, r) && Tells(c, evals, visits, r.facts)
      ensures old(Clean(state.queue)) && DistinctUids(state.queue) ==>
        Clean(state.queue) && Unmasked(state.queue, visits)
    {
      var c := Context(Mem(state.queue, state.inFlight, state.successes, state.failed, state.cursors,
                           state.triggerSkipped),
                       selection, inFlight);
      var t, index;
      t, index, visits := ScanRows(c, order, evals);
      VisitedDone(c, order, evals, visits);
      TallyMeans(c, visits, t, index);
      r := t.Result(index);
      ScanMeans(c, order, evals, visits, r);
    }

    method ScanRows(c: Context, order: seq<nat>, evals: seq<Evaluation>)
      returns (t: Tally, index: Option<nat>, ghost visits: seq<Visit>)
      requires Valid() && |evals| == |c.m.queue| && forall k :: 0 <= k < |order| ==> order[k] < |c.m.queue|
      modifies this`cache
      ensures Valid() && Scanning(c, order, evals, visits, t, index) && (|visits| == |order| || index.Some?)
      ensures old(Clean(c.m.queue)) && DistinctUids(c.m.queue) ==> Clean(c.m.queue) && Unmasked(c.m.queue, visits)
    {
      t := Tally(Attribution([], [], [], []), false, false, Infinite, None, None);
      index, visits := None, [];
      ghost var tidy := Clean(c.m.queue) && DistinctUids(c.m.queue);
      var i := 0;
      while i < |order| && index.None?
        invariant 0 <= i <= |order| && Valid() && |visits| == i
        invariant Scanning(c, order, evals, visits, t, index)
        invariant tidy ==> Clean(c.m.queue) && Unmasked(c.m.queue, visits)
        decreases |order| - i
      {
        var x;
        x, t := Turn(c, order, evals, visits, t, order[i]);
        index := if x.verdict == Runnable then Some(order[i]) else None;
        visits := visits + [x];
        i := i + 1;
      }
    }

    /** One row: look it up, judge it, account for it. */
    method Turn(c: Context, ghost order: seq<nat>, evals: seq<Evaluation>, ghost visits: seq<Visit>, t: Tally, i: nat)
      returns (x: Visit, after: Tally)
      requires Valid() && |evals| == |c.m.queue| && forall k :: 0 <= k < |order| ==> order[k] < |c.m.queue|
      requires |visits| < |order| && i == order[|visits|] && Scanning(c, order, evals, visits, t, None)
      modifies this`cache
      ensures Valid() && x.index == i
      ensures Scanning(c, order, evals, visits + [x], after, if x.verdict == Runnable then Some(i) else None)
      ensures old(Clean(c.m.queue)) && DistinctUids(c.m.queue) ==>
        Clean(c.m.queue) && (Unmasked(c.m.queue, visits) ==> Unmasked(c.m.queue, visits + [x]))
    {
      var facts := CachedJob(c.m.queue[i], c.m.queue);
      var verdict := Inspect(c, facts, evals[i]);
      x := Visit(i, facts, verdict);
      after := Account(c, order, evals, visits, t, x);
    }

    method Account(c: Context, ghost order: seq<nat>, ghost evals: seq<Evaluation>, ghost visits: seq<Visit>, t: Tally,
                   x: Visit)
      returns (after: Tally)
      requires |evals| == |c.m.queue| && forall k :: 0 <= k < |order| ==> order[k] < |c.m.queue|
      requires |visits| < |order| && Visited(c, order[..|visits|], evals, visits) && !Stopped(visits)
      requires x.index == order[|visits|] && x.verdict == c.Judge(x.facts, evals[x.index])
      requires c.m.queue[x.index].Job? ==> x.facts == Some(FactsOf(c.m.queue[x.index]))
      requires Tallied(c, visits, t)
      ensures Visited(c, order[..|visits| + 1], evals, visits + [x]) && Tallied(c, visits + [x], after)
      ensures Stopped(visits + [x]) <==> x.verdict == Runnable
    {
      TallyAppend(c, visits, x, t);
      VisitedAppend(c, order, evals, visits, x);
      after := t.Note(c.m.queue[x.index].uid, x);
    }

    /** Selection, dependency barrier, resource evaluation, in that order. */
    method Inspect(c: Context, facts: Option<JobFacts>, e: Evaluation) returns (v: Verdict)
      ensures v == c.Judge(facts, e) && Means(c, facts, e, v)
    {
      JudgeMeans(c, facts, e, c.Judge(facts, e));
      if facts.None? {
        return Unparseable;
      }
      if !c.Admits(facts.value.taskType) {
        return SelectedOut;
      }
      var failed, hasMissing, waitingForDep := Barrier(c, facts.value.fields.deps);
      if failed.Some? {
        return FailedBy(failed.value);
      }
      if hasMissing {
        return MissingDependency;
      }
      if waitingForDep {
        return Waits;
      }
      match e {
        case UnknownResource => v := Unknown;
        case ImpossibleAmount => v := Impossible;
        case Busy(w) => v := Unavailable(w);
        case Available => v := Runnable;
      }
    }

    /** The dependency barrier of one job: stops at the first failed dependency. */
    method Barrier(c: Context, deps: seq<Uid>) returns (failed: Option<Uid>, hasMissing: bool, waitingForDep: bool)
      ensures failed == c.FirstBroken(deps)
      ensures failed.None? ==>
        (hasMissing <==> c.Has(deps, Absent)) && (waitingForDep <==> c.Has(deps, Active) || c.Has(deps, Parked))
    {
      failed, hasMissing, waitingForDep := None, false, false;
      var i := 0;
      while i < |deps| && failed.None?
        invariant 0 <= i <= |deps|
        invariant c.FirstBroken(deps) == if failed.Some? then failed else c.FirstBroken(deps[i..])
        invariant failed.None? ==> (hasMissing <==> c.Has(deps[..i], Absent))
        invariant failed.None? ==> (waitingForDep <==> c.Has(deps[..i], Active) || c.Has(deps[..i], Parked))
      {
        HasAppend(c, deps[..i], deps[i]);
        assert deps[..i + 1] == deps[..i] + [deps[i]];
        match c.StatusOf(deps[i]) {
          case Active => waitingForDep := true;
          case Excused =>
          case Broken => failed := Some(deps[i]);
          case Done =>
          case Parked => waitingForDep := true;
          case Absent => hasMissing := true;
        }
        assert deps[i..][1..] == deps[i + 1..];
        i := i + 1;
      }
      assert deps[..|deps|] == deps;
    }
  }

  lemma HasAppend(c: Context, deps: seq<Uid>, d: Uid)
    ensures forall s :: c.Has(deps + [d], s) <==> c.Has(deps, s) || c.StatusOf(d) == s
  {
    forall s ensures c.Has(deps + [d], s) <==> c.Has(deps, s) || c.StatusOf(d) == s {
      if c.Has(deps, s) {
        var i :| 0 <= i < |deps| && c.StatusOf(deps[i]) == s;
        assert (deps + [d])[i] == deps[i];
      }
      assert (deps + [d])[|deps|] == d;
    }
  }

  function Smaller(w: Wait, s: real): Wait {
    if w.Finite? && w.seconds <= s then w else Finite(s)
  }
}
