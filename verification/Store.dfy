/** The state store: every terminal transition commits to the backend first and only then
    moves memory; a failed commit ends in a strike, a crash signal, or the archive. */
module Store {
  import opened Jobs
  import opened State
  import opened Disk
  import opened SqliteBackend
  import opened Standstill
  import opened Mirror

  /** The parseable queued jobs that the selection keeps from running. */
  function ExcludedNow(sel: Option<Selection>, queue: seq<Row>): set<Uid> {
    if sel.None? || !sel.value.IsActive() then {}
    else set r | r in queue && r.Job? && !sel.value.Allows(r.taskType) :: r.uid
  }

  function CascadeBatch(p: Policy, cascade: seq<Uid>): seq<(Uid, Meta)> {
    seq(|cascade|, i requires 0 <= i < |cascade| => (cascade[i], p.cascadeMeta(cascade[i])))
  }

  function NormalizeAll(p: Policy, batch: seq<(Uid, Meta)>): seq<(Uid, Meta)> {
    seq(|batch|, i requires 0 <= i < |batch| => (batch[i].0, p.normalize(batch[i].1)))
  }

  function NotIn(batch: seq<(Uid, Meta)>, excluded: set<Uid>): seq<(Uid, Meta)> {
    if batch == [] then []
    else (if batch[0].0 in excluded then [] else [batch[0]]) + NotIn(batch[1..], excluded)
  }

  lemma NotInUids(batch: seq<(Uid, Meta)>, excluded: set<Uid>)
    ensures BatchUids(NotIn(batch, excluded)) == BatchUids(batch) - excluded
  {
    if batch != [] {
      NotInUids(batch[1..], excluded);
      assert batch == [batch[0]] + batch[1..];
      assert BatchUids(batch) == {batch[0].0} + BatchUids(batch[1..]);
      var rest := NotIn(batch[1..], excluded);
      if batch[0].0 !in excluded {
        assert BatchUids([batch[0]] + rest) == {batch[0].0} + BatchUids(rest);
      } else {
        assert [] + rest == rest;
      }
    }
  }

  /** A queued job is kept from running exactly if a rule names its task type. */
  lemma ExcludedMeans(sel: Option<Selection>, queue: seq<Row>, u: Uid)
    ensures u in ExcludedNow(sel, queue) <==>
      exists i :: 0 <= i < |queue| && queue[i].Job? && queue[i].uid == u && Named(sel, queue[i].taskType)
  {
    if sel.Some? {
      forall t ensures sel.value.Allows(t) <==> !Named(sel, t) {
        RulesDecide(sel.value, t);
      }
    }
    if u in ExcludedNow(sel, queue) {
      var r :| r in queue && r.Job? && !sel.value.Allows(r.taskType) && r.uid == u;
    }
  }

  /** The entries of the other uids, in their order. */
  lemma {:induction false} NotInReadsOff(batch: seq<(Uid, Meta)>, excluded: set<Uid>) returns (positions: seq<nat>)
    ensures ReadOff(batch, positions, NotIn(batch, excluded))
    ensures forall i :: i in positions <==> 0 <= i < |batch| && batch[i].0 !in excluded
  {
    if batch == [] {
      positions := [];
    } else {
      var front, e := batch[..|batch| - 1], batch[|batch| - 1];
      assert batch == front + [e];
      positions := NotInReadsOff(front, excluded);
      NotInAppend(front, e, excluded);
      ReadOffMore(front, e, positions, NotIn(front, excluded));
      if e.0 !in excluded {
        positions := positions + [|front|];
      }
    }
  }

  lemma NotInAppend(batch: seq<(Uid, Meta)>, e: (Uid, Meta), excluded: set<Uid>)
    ensures NotIn(batch + [e], excluded) == NotIn(batch, excluded) + if e.0 in excluded then [] else [e]
  {
    if batch != [] {
      assert (batch + [e])[1..] == batch[1..] + [e];
      NotInAppend(batch[1..], e, excluded);
    }
  }

  /** Every cascaded job is failed under its own record. */
  lemma CascadeBatchMeans(p: Policy, cascade: seq<Uid>)
    ensures var b := CascadeBatch(p, cascade);
      |b| == |cascade| && forall i :: 0 <= i < |b| ==> b[i].0 == cascade[i] && b[i].1 == p.cascadeMeta(cascade[i])
  {
  }

  lemma CascadeBatchUids(p: Policy, cascade: seq<Uid>)
    ensures BatchUids(CascadeBatch(p, cascade)) == SetOf(cascade)
  {
    var b := CascadeBatch(p, cascade);
    forall u | u in SetOf(cascade) ensures u in BatchUids(b) {
      var i :| 0 <= i < |cascade| && cascade[i] == u;
      assert b[i] in b;
    }
  }

  lemma NormalizeAllUids(p: Policy, batch: seq<(Uid, Meta)>)
    ensures BatchUids(NormalizeAll(p, batch)) == BatchUids(batch)
  {
    var b := NormalizeAll(p, batch);
    forall u | u in BatchUids(batch) ensures u in BatchUids(b) {
      var i :| 0 <= i < |batch| && batch[i].0 == u;
      assert b[i] in b;
    }
  }

  /** A cascade names queued jobs only. */
  lemma DownstreamIsQueued(m: Mem, excluded: set<Uid>, root: Uid, u: Uid)
    requires Downstream(m, excluded, root, u)
    ensures u in m.QueueUids() && u !in excluded
  {
    var p :| CascadePath(m, excluded, p) && |p| > 1 && p[0] == root && p[|p| - 1] == u;
    assert DependsOn(m.queue, p[|p| - 1], p[|p| - 2]);
  }

  /** After a committed cascade, whatever still depends on the failed job or on a cascaded one
      is excluded, or has a terminal record. */
  lemma CascadeLeavesNoOrphan(m: Mem, excluded: set<Uid>, root: Uid, cascade: seq<Uid>, record: Meta -> Meta,
                              batch: seq<(Uid, Meta)>)
    requires root in m.failed && m.successes.Keys !! m.failed.Keys
    requires forall u :: u in cascade <==> u != root && Downstream(m, excluded, root, u)
    requires BatchUids(batch) == SetOf(cascade)
    ensures var after := BatchFailed(m, record, batch);
      forall r, d :: r in after.queue && r.Job? && d in r.Deps() && (d == root || d in cascade) ==>
        r.uid in excluded || r.uid in after.successes || r.uid in after.failed
  {
    var gone := BatchUids(batch);
    WithoutUids(m.queue, gone);
    RecordAllKeys(m.ReplaceQueue(Without(m.queue, gone)), record, batch);
    var after := BatchFailed(m, record, batch);
    forall r, d | r in after.queue && r.Job? && d in r.Deps() && (d == root || d in cascade)
      ensures r.uid in excluded || r.uid in after.successes || r.uid in after.failed
    {
      assert DependsOn(m.queue, r.uid, d);
      if Open(m, excluded, r.uid) {
        DownstreamExtends(m, excluded, root, d, r.uid);
      }
    }
  }

  /** Whole-batch failure of the jobs the selection lets run; nothing happens when it lets none. */
  function FailBulk(w: World, p: Policy, sel: Option<Selection>, batch: seq<(Uid, Meta)>, f: Faults): (World, Exit) {
    var excluded := ExcludedNow(sel, w.mem.queue);
    var wanted := NotIn(batch, excluded);
    if excluded != {} && wanted == [] then (w, Returned)
    else FailBatch(w, p, x => x, NormalizeAll(p, wanted), f)
  }

  class StateStore {
    const backend: SqliteStateBackend
    const state: PipelineState
    const policy: Policy
    var selection: Option<Selection>

    constructor (b: SqliteStateBackend, s: PipelineState, p: Policy, sel: Option<Selection>)
      ensures backend == b && state == s && policy == p && selection == sel
    {
      backend, state, policy, selection := b, s, p, sel;
    }

    ghost predicate Valid()
      reads this, backend, state
    {
      backend.Valid() && state.Valid()
    }

    ghost function Now(): World
      reads this, backend, state
    {
      World(backend.View(), state.View())
    }

    /** Success: disk first; then spawned jobs, cursors, terminal record, in-flight, in memory. */
    method ApplySuccess(c: SuccessCommit, row: Row, f: Faults, ghost foreign: set<Uid>) returns (exit: Exit)
      requires Valid() && Settling(Now(), foreign, c.uid) && row.uid == c.uid
      modifies backend, state
      ensures Valid() && (Now(), exit) == Mirror.ApplySuccess(old(Now()), policy, c, row, f)
      ensures Mirrors(Now(), foreign, {})
    {
      ghost var w := Now();
      SuccessMirrors(w, policy, c, row, f, foreign);
      var reply := backend.CommitJobSuccess(c, f.commit);
      if reply == Flag(true) {
        state.SpawnJobs(c.spawned, true);
        state.UpdateCursors(c.cursors);
        state.MarkSuccess(c.uid, c.meta);
        state.UnregisterInFlight(c.uid);
        return Returned;
      }
      exit := HandleCommitFailureStrike(c.uid, row, f.strike, foreign);
    }

    /** One more strike; archive at the threshold, otherwise requeue in memory and crash. */
    method HandleCommitFailureStrike(u: Uid, row: Row, archiveFault: bool, ghost foreign: set<Uid>) returns (exit: Exit)
      requires Valid() && (Settling(Now(), foreign, u) || Unqueued(Now(), foreign, u)) && row.uid == u
      modifies backend, state
      ensures Valid() && (Now(), exit) == CommitStrike(old(Now()), policy, u, row, archiveFault)
    {
      var struck := Struck(row);
      if struck.strikes >= policy.threshold {
        var reply := backend.CommitJobFailure(u, policy.strikeMeta, struck.payload, archiveFault);
        if reply == Flag(true) {
          MarkFailedMemory(u, policy.strikeMeta, true);
          return Terminated;
        }
      }
      state.UnregisterInFlight(u);
      state.SpawnJobs([struck], true);
      exit := CrashSignal;
    }

    method MarkFailedMemory(u: Uid, m: Meta, unregister: bool)
      requires state.Valid() && (unregister ==> state.View().MarkFailed(u, m).Unregister(u).Exclusive())
      modifies state
      ensures state.Valid()
      ensures var after := old(state.View()).MarkFailed(u, policy.normalize(m));
        state.View() == if unregister then after.Unregister(u) else after
    {
      state.MarkFailed(u, policy.normalize(m));
      if unregister {
        state.UnregisterInFlight(u);
      }
    }

    /** Permanent failure and, if asked, its cascade. Without a disk row, memory mirrors the disk
        afterwards unless the failure could not be committed and the row was put back. */
    method ApplyFailure(u: Uid, m: Meta, row: Row, cascade: bool, f: Faults, ghost foreign: set<Uid>)
      returns (exit: Exit, cascaded: seq<Uid>)
      requires Valid() && (Settling(Now(), foreign, u) || Unqueued(Now(), foreign, u)) && row.uid == u
      modifies backend, state
      ensures Valid()
      ensures Mirrors(Now(), foreign, {}) <==> !old(Unqueued(Now(), foreign, u)) || !f.commit || exit == Terminated
      ensures f.commit ==> (Now(), exit) == CommitStrike(old(Now()), policy, u, row, f.strike) && cascaded == []
      ensures !f.commit ==>
        var w := ArchiveFailure(old(Now()), policy, u, m, row);
        && (!cascade ==> Now() == w && exit == Returned && cascaded == [])
        && (cascade ==> Cascaded(w, u, cascaded, f, Now(), exit))
    {
      ghost var w := Now();
      cascaded := [];
      FailureLeaves(w, u, m, row, f, foreign);
      var n := policy.normalize(m);
      var reply := backend.CommitJobFailure(u, n, row.payload, f.commit);
      if reply == Flag(true) {
        MarkFailedMemory(u, n, true);
        exit := Returned;
        if cascade {
          exit, cascaded := CascadeFail(u, f, foreign);
        }
      } else {
        exit := HandleCommitFailureStrike(u, row, f.strike, foreign);
      }
    }

    /** What the job itself leaves behind, before its cascade. */
    lemma FailureLeaves(w: World, u: Uid, m: Meta, row: Row, f: Faults, foreign: set<Uid>)
      requires (Settling(w, foreign, u) || Unqueued(w, foreign, u)) && row.uid == u
      ensures Settling(w, foreign, u) ==> !Unqueued(w, foreign, u)
      ensures Mirrors(ArchiveFailure(w, policy, u, m, row), foreign, {})
      ensures Mirrors(CommitStrike(w, policy, u, row, f.strike).0, foreign, {}) <==>
        !Unqueued(w, foreign, u) || CommitStrike(w, policy, u, row, f.strike).1 == Terminated
    {
      if Unqueued(w, foreign, u) {
        UnqueuedArchives(w, u, policy.normalize(m), row.payload, policy.normalize(policy.normalize(m)), foreign);
        UnqueuedStrike(w, policy, u, row, f.strike, foreign);
      } else {
        FailureMirrors(w, policy, u, m, row, foreign);
        StrikeMirrors(w, policy, u, row, f.strike, foreign);
      }
    }

    /** What a cascade from `root` out of `w` amounts to: exactly the open downstream jobs, each
        once, failed as one batch. */
    ghost predicate Cascaded(w: World, root: Uid, cascaded: seq<Uid>, f: Faults, after: World, exit: Exit)
      reads this
    {
      && NoRepeats(cascaded)
      && (forall u :: u in cascaded <==> u != root && Downstream(w.mem, ExcludedNow(selection, w.mem.queue), root, u))
      && (after, exit) == if cascaded == [] then (w, Returned)
                          else FailBatch(w, policy, policy.normalize, CascadeBatch(policy, cascaded), f)
    }

    method CascadeFail(root: Uid, f: Faults, ghost foreign: set<Uid>) returns (exit: Exit, cascaded: seq<Uid>)
      requires Valid() && Mirrors(Now(), foreign, {})
      modifies backend, state
      ensures Valid() && Mirrors(Now(), foreign, {}) && Cascaded(old(Now()), root, cascaded, f, Now(), exit)
    {
      ghost var w := Now();
      var excluded := ExcludedNow(selection, state.queue);
      cascaded := state.CascadeFail(root, excluded);
      forall u | u in cascaded ensures u in w.mem.QueueUids() {
        DownstreamIsQueued(w.mem, excluded, root, u);
      }
      if cascaded == [] {
        return Returned, [];
      }
      CascadeBatchUids(policy, cascaded);
      exit := CommitBatch(CascadeBatch(policy, cascaded), policy.normalize, f, foreign);
    }

    /** One transaction for the batch; if it fails, strike the jobs one by one. */
    method CommitBatch(batch: seq<(Uid, Meta)>, record: Meta -> Meta, f: Faults, ghost foreign: set<Uid>)
      returns (exit: Exit)
      requires Valid() && Mirrors(Now(), foreign, {})
      requires BatchUids(batch) !! state.inFlight && BatchUids(batch) !! foreign
      modifies backend, state
      ensures Valid() && Mirrors(Now(), foreign, {})
      ensures (Now(), exit) == FailBatch(old(Now()), policy, record, batch, f)
    {
      ghost var w := Now();
      BatchMirrors(w, policy, record, batch, f, foreign);
      var reply := backend.CommitJobFailures(batch, f.batch);
      if reply == Flag(true) {
        RecordBatch(batch, record);
        return Returned;
      }
      var queue, kept := HandleBulkFailureStrike(batch, f);
      state.ReplaceQueue(queue);
      exit := if kept then CrashSignal else Returned;
    }

    /** Memory after a committed batch. */
    method RecordBatch(batch: seq<(Uid, Meta)>, record: Meta -> Meta)
      requires state.Valid() && state.View().Exclusive()
      modifies state
      ensures state.Valid() && state.View() == BatchFailed(old(state.View()), record, batch)
    {
      WithoutUids(state.queue, BatchUids(batch));
      state.ReplaceQueue(Without(state.queue, BatchUids(batch)));
      ghost var m := state.View();
      for i := 0 to |batch|
        invariant state.Valid() && state.View() == RecordAll(m, record, batch[..i]) && state.View().Exclusive()
      {
        assert batch[..i + 1][..i] == batch[..i];
        state.MarkFailed(batch[i].0, record(batch[i].1));
        state.UnregisterInFlight(batch[i].0);
      }
      assert batch[..|batch|] == batch;
    }

    /** The three-strike sweep over a batch that could not be committed. */
    method HandleBulkFailureStrike(batch: seq<(Uid, Meta)>, f: Faults) returns (queue: seq<Row>, kept: bool)
      requires Valid()
      modifies backend, state
      ensures Valid()
      ensures Sweep(Now(), queue, kept) ==
        SweepAll(Sweep(old(Now()), old(state.queue), false), policy, UidsOf(batch), f)
    {
      ghost var s := Sweep(Now(), state.queue, false);
      queue, kept := state.queue, false;
      for i := 0 to |batch|
        invariant Valid() && Sweep(Now(), queue, kept) == SweepAll(s, policy, UidsOf(batch)[..i], f)
      {
        assert UidsOf(batch)[..i + 1][..i] == UidsOf(batch)[..i];
        queue, kept := StrikeOne(batch[i].0, queue, kept, f);
      }
      assert UidsOf(batch)[..|batch|] == UidsOf(batch);
    }

    method StrikeOne(u: Uid, queue: seq<Row>, kept: bool, f: Faults) returns (queue': seq<Row>, kept': bool)
      requires Valid()
      modifies backend, state
      ensures Valid() && Sweep(Now(), queue', kept') == SweepOne(Sweep(old(Now()), queue, kept), policy, u, f)
    {
      var row := RowOf(queue, u);
      var strikes := if row.Some? then row.value.strikes + 1 else 1;
      queue', kept' := Bump(queue, u), kept;
      if strikes >= policy.threshold {
        var payload := if row.Some? then row.value.payload else None;
        var reply := backend.CommitJobFailure(u, policy.strikeMeta, payload, f.single(u));
        if reply == Flag(true) {
          MarkFailedMemory(u, policy.strikeMeta, false);
          queue' := Without(queue', {u});
          return;
        }
      }
      kept' := true;
    }

    /** Retry: the same uid re-enters both queues. */
    method ApplyRetry(u: Uid, row: Row, retry: Row, front: bool, f: Faults, ghost foreign: set<Uid>)
      returns (exit: Exit)
      requires Valid() && Settling(Now(), foreign, u) && row.uid == u && retry.uid == u
      modifies backend, state
      ensures Valid() && (Now(), exit) == Mirror.ApplyRetry(old(Now()), policy, u, row, retry, front, f)
      ensures Mirrors(Now(), foreign, {})
    {
      ghost var w := Now();
      RetryMirrors(w, policy, u, row, retry, front, f, foreign);
      var reply := backend.CommitRetry(u, retry, front, f.commit);
      if reply == Flag(true) {
        state.UnregisterInFlight(u);
        state.SpawnJobs([retry], front);
        return Returned;
      }
      exit := HandleCommitFailureStrike(u, row, f.strike, foreign);
    }

    /** Terminal skip: both queues lose the job, no archive is written. */
    method ApplySkip(u: Uid, row: Option<Row>, f: Faults, ghost foreign: set<Uid>) returns (exit: Exit)
      requires Valid() && Mirrors(Now(), foreign, {u}) && (row.Some? ==> row.value.uid == u)
      modifies backend, state
      ensures Valid() && (Now(), exit) == Mirror.ApplySkip(old(Now()), u, row, f)
      ensures Mirrors(Now(), foreign, {}) <==> exit == Returned || row.Some? || u in old(state.queueUids)
    {
      ghost var w := Now();
      SkipMirrors(w, u, row, f, foreign);
      WithoutUids(state.queue, {u});
      var reply := backend.CommitSkip(u, f.commit);
      if reply == Flag(true) {
        state.RemoveQueuedUid(u);
        state.UnregisterInFlight(u);
        return Returned;
      }
      state.UnregisterInFlight(u);
      if row.Some? {
        state.SpawnJobs([row.value], true);
      }
      exit := CrashSignal;
    }

    /** Deadlock or whole-queue failure, of queued jobs or of jobs that no queue knows; what the
        selection excludes is left out of the archive. */
    method ApplyBulkFailure(batch: seq<(Uid, Meta)>, f: Faults, ghost foreign: set<Uid>)
      returns (exit: Exit, failedUids: seq<Uid>)
      requires Valid() && Mirrors(Now(), foreign, {})
      requires BatchUids(batch) !! state.inFlight && BatchUids(batch) !! foreign
      modifies backend, state
      ensures Valid() && Mirrors(Now(), foreign, {})
      ensures failedUids == UidsOf(NotIn(batch, ExcludedNow(selection, old(state.queue))))
      ensures (Now(), exit) == FailBulk(old(Now()), policy, selection, batch, f)
    {
      ghost var w := Now();
      var excluded := ExcludedNow(selection, state.queue);
      var wanted := NotIn(batch, excluded);
      NotInUids(batch, excluded);
      failedUids := UidsOf(wanted);
      if excluded != {} && wanted == [] {
        return Returned, [];
      }
      var normalized := NormalizeAll(policy, wanted);
      NormalizeAllUids(policy, wanted);
      exit := CommitBatch(normalized, x => x, f, foreign);
    }
  }
}
