/** What every change of the in-memory state means, job by job and row by row, and what every
    transactional exit therefore does to both sides: stated without the functions that compute it. */
module Memory {
  import opened Jobs
  import opened State
  import opened Disk
  import opened Contract
  import opened Mirror

  // ---- changes of memory ----

  ghost predicate SameTerminals(m: Mem, n: Mem) {
    n.successes == m.successes && n.failed == m.failed && n.cursors == m.cursors
  }

  /** A job that joins the queue is no longer counted as skipped. */
  ghost predicate Recalled(m: Mem, rows: seq<Row>, n: Mem) {
    forall u :: u in n.triggerSkipped <==> u in m.triggerSkipped && !exists i :: 0 <= i < |rows| && rows[i].uid == u
  }

  /** The rows join at the asked end in their order, and their jobs are no longer counted as skipped. */
  lemma SpawnMeans(m: Mem, rows: seq<Row>, front: bool)
    ensures var n := m.Spawn(rows, front);
      && Joined(n.queue, rows, m.queue, front) && n.inFlight == m.inFlight && SameTerminals(m, n)
      && Recalled(m, rows, n)
  {
    JoinBoth(rows, m.queue);
    RecalledMeans(m, rows, m.Spawn(rows, front));
  }

  lemma RecalledMeans(m: Mem, rows: seq<Row>, n: Mem)
    requires n.triggerSkipped == m.triggerSkipped - UidSet(rows)
    ensures Recalled(m, rows, n)
  {
    forall u ensures u in UidSet(rows) <==> exists i :: 0 <= i < |rows| && rows[i].uid == u {
      UidOfSome(rows, u);
    }
  }

  lemma ReplaceMeans(m: Mem, rows: seq<Row>)
    ensures var n := m.ReplaceQueue(rows);
      n.queue == rows && n.inFlight == m.inFlight && SameTerminals(m, n) && Recalled(m, rows, n)
  {
    RecalledMeans(m, rows, m.ReplaceQueue(rows));
  }

  lemma RemoveMeans(m: Mem, u: Uid)
    ensures var n := m.RemoveQueued(u);
      && Lose(m.queue, n.queue, {u}) && n.inFlight == m.inFlight && SameTerminals(m, n)
      && n.triggerSkipped == m.triggerSkipped
  {
    WithoutLoses(m.queue, {u});
  }

  lemma FlightMeans(m: Mem, u: Uid)
    ensures forall v :: v in m.Register(u).inFlight <==> v in m.inFlight || v == u
    ensures forall v :: v in m.Unregister(u).inFlight <==> v in m.inFlight && v != u
    ensures forall n :: n in {m.Register(u), m.Unregister(u)} ==>
      n.queue == m.queue && SameTerminals(m, n) && n.triggerSkipped == m.triggerSkipped
  {
  }

  /** A terminal record replaces whatever record the job had, and no other job's. */
  lemma MarkMeans(m: Mem, u: Uid, meta: Meta)
    ensures var n := m.MarkSuccess(u, meta);
      Changed(m.successes, n.successes, u, Some(meta)) && Changed(m.failed, n.failed, u, None) && Unskipped(m, n, u)
    ensures var n := m.MarkFailed(u, meta);
      Changed(m.failed, n.failed, u, Some(meta)) && Changed(m.successes, n.successes, u, None) && Unskipped(m, n, u)
    ensures var n := m.MarkTriggerSkipped(u);
      && (forall v :: v in n.triggerSkipped <==> v in m.triggerSkipped || v == u)
      && n.queue == m.queue && n.inFlight == m.inFlight && SameTerminals(m, n)
  {
  }

  ghost predicate Unskipped(m: Mem, n: Mem, u: Uid) {
    && n.queue == m.queue && n.inFlight == m.inFlight && n.cursors == m.cursors
    && forall v :: v in n.triggerSkipped <==> v in m.triggerSkipped && v != u
  }

  lemma CursorsMean(m: Mem, updates: map<string, Option<string>>)
    ensures var n := m.UpdateCursors(updates);
      && Moved(m.cursors, n.cursors, updates) && n.queue == m.queue && n.inFlight == m.inFlight
      && n.successes == m.successes && n.failed == m.failed && n.triggerSkipped == m.triggerSkipped
  {
    CursorsMove(m.cursors, updates);
  }

  /** A dependency is met when nothing of it is left to run and it was done or excused. */
  lemma ReadyMeans(m: Mem, u: Uid)
    ensures m.DependencyReady(u) <==>
      && (forall i :: 0 <= i < |m.queue| ==> m.queue[i].uid != u) && u !in m.inFlight
      && (u in m.successes || u in m.triggerSkipped)
  {
    UidOfSome(m.queue, u);
  }

  // ---- exits on both sides ----

  /** The job is archived on both sides and out of flight; memory's queue is left alone. */
  ghost predicate ArchivedAs(w: World, u: Uid, onDisk: Meta, payload: Option<Payload>, inMemory: Meta, after: World) {
    && Fails(w.disk, u, onDisk, payload, after.disk)
    && after.mem.queue == w.mem.queue && after.mem.cursors == w.mem.cursors
    && Changed(w.mem.failed, after.mem.failed, u, Some(inMemory))
    && Changed(w.mem.successes, after.mem.successes, u, None) && Landed(w, u, after)
  }

  /** Only this job has left the flight. */
  ghost predicate Landed(w: World, u: Uid, after: World) {
    forall v :: v in after.mem.inFlight <==> v in w.mem.inFlight && v != u
  }

  /** The disk is as it was; in memory the row is at the asked end, and the job out of flight. */
  ghost predicate BackInMemory(w: World, u: Uid, row: Row, front: bool, after: World) {
    after.disk == w.disk && Requeued(w, u, row, front, after)
  }

  ghost predicate Requeued(w: World, u: Uid, row: Row, front: bool, after: World) {
    Joined(after.mem.queue, [row], w.mem.queue, front) && SameTerminals(w.mem, after.mem) && Landed(w, u, after)
  }

  /** One more strike: archived at the threshold, otherwise back at the head with the strike. */
  ghost predicate Strikes(w: World, p: Policy, u: Uid, row: Row, fault: bool, after: World, exit: Exit) {
    if row.strikes + 1 >= p.threshold && !fault then
      exit == Terminated && ArchivedAs(w, u, p.strikeMeta, row.payload, p.normalize(p.strikeMeta), after)
    else exit == CrashSignal && BackInMemory(w, u, row.(strikes := row.strikes + 1), true, after)
  }

  lemma ArchiveMeans(w: World, u: Uid, onDisk: Meta, payload: Option<Payload>, inMemory: Meta)
    ensures ArchivedAs(w, u, onDisk, payload, inMemory,
                       World(w.disk.CommitFailure(u, onDisk, payload), w.mem.MarkFailed(u, inMemory).Unregister(u)))
  {
    FailureDoes(w.disk, u, onDisk, payload);
    MarkMeans(w.mem, u, inMemory);
  }

  lemma BackMeans(w: World, u: Uid, row: Row, front: bool)
    ensures BackInMemory(w, u, row, front, World(w.disk, w.mem.Unregister(u).Spawn([row], front)))
  {
    SpawnMeans(w.mem.Unregister(u), [row], front);
  }

  lemma StrikeMeans(w: World, p: Policy, u: Uid, row: Row, fault: bool)
    ensures var (after, exit) := CommitStrike(w, p, u, row, fault); Strikes(w, p, u, row, fault, after, exit)
  {
    ArchiveMeans(w, u, p.strikeMeta, row.payload, p.normalize(p.strikeMeta));
    BackMeans(w, u, Struck(row), true);
  }

  /** A success is all of it on both sides, or a strike. */
  lemma SuccessMeans(w: World, p: Policy, c: SuccessCommit, row: Row, f: Faults)
    ensures var (after, exit) := Mirror.ApplySuccess(w, p, c, row, f);
      if Acceptable(w.disk, c) && !f.commit then
        && exit == Returned && Succeeds(w.disk, c, after.disk) && Landed(w, c.uid, after)
        && Joined(after.mem.queue, c.spawned, w.mem.queue, true) && Moved(w.mem.cursors, after.mem.cursors, c.cursors)
        && Changed(w.mem.successes, after.mem.successes, c.uid, Some(c.meta))
        && Changed(w.mem.failed, after.mem.failed, c.uid, None)
      else Strikes(w, p, c.uid, row, f.strike, after, exit)
  {
    SuccessDoes(w.disk, c);
    StrikeMeans(w, p, c.uid, row, f.strike);
    SpawnMeans(w.mem, c.spawned, true);
    CursorsMove(w.mem.cursors, c.cursors);
  }

  lemma FailureMeans(w: World, p: Policy, u: Uid, m: Meta, row: Row)
    ensures ArchivedAs(w, u, p.normalize(m), row.payload, p.normalize(p.normalize(m)), ArchiveFailure(w, p, u, m, row))
  {
    ArchiveMeans(w, u, p.normalize(m), row.payload, p.normalize(p.normalize(m)));
  }

  /** A retry puts the row at the asked end of both queues, or is a strike. */
  lemma RetryMeans(w: World, p: Policy, u: Uid, row: Row, retry: Row, front: bool, f: Faults)
    ensures var (after, exit) := Mirror.ApplyRetry(w, p, u, row, retry, front, f);
      if !f.commit && (retry.uid == u || forall j :: 0 <= j < |w.disk.queue| ==> w.disk.queue[j].uid != retry.uid) then
        && exit == Returned && Retries(w.disk, u, retry, front, after.disk, Flag(true))
        && Requeued(w, u, retry, front, after)
      else Strikes(w, p, u, row, f.strike, after, exit)
  {
    RetryDoes(w.disk, u, retry, front);
    StrikeMeans(w, p, u, row, f.strike);
    BackMeans(w, u, retry, front);
  }

  /** A skip takes the job out of both queues and writes no record; if it cannot be committed, the
      row, if there is one, is back at the head of memory. */
  lemma SkipMeans(w: World, u: Uid, row: Option<Row>, f: Faults)
    ensures var (after, exit) := Mirror.ApplySkip(w, u, row, f);
      if !f.commit then
        && exit == Returned && Trims(w.disk, OpSkip(u), after.disk, Flag(true))
        && Lose(w.mem.queue, after.mem.queue, {u}) && SameTerminals(w.mem, after.mem) && Landed(w, u, after)
      else
        && exit == CrashSignal && after.disk == w.disk
        && if row.Some? then BackInMemory(w, u, row.value, true, after)
           else after.mem.queue == w.mem.queue && SameTerminals(w.mem, after.mem) && Landed(w, u, after)
  {
    WithoutLoses(w.disk.queue, {u});
    WithoutLoses(w.mem.queue, {u});
    if row.Some? {
      BackMeans(w, u, row.value, true);
    }
  }

  /** The job is skipped: off both queues without a record, and counted as met from now on. If that
      cannot be committed, its row heads memory again. */
  ghost predicate SkippedAs(w: World, row: Row, f: Faults, after: World, exit: Exit) {
    if f.commit then exit == CrashSignal && BackInMemory(w, row.uid, row, true, after)
    else
      && exit == Returned && Trims(w.disk, OpSkip(row.uid), after.disk, Flag(true))
      && Lose(w.mem.queue, after.mem.queue, {row.uid}) && SameTerminals(w.mem, after.mem)
      && after.mem.triggerSkipped == w.mem.triggerSkipped + {row.uid}
  }

  lemma SkipMarks(w: World, row: Row, f: Faults)
    ensures var (after, exit) := Mirror.ApplySkip(w, row.uid, Some(row), f);
      var marked := World(after.disk, after.mem.MarkTriggerSkipped(row.uid));
      SkippedAs(w, row, f, if exit == Returned then marked else after, exit)
  {
    SkipMeans(w, row.uid, Some(row), f);
  }

  // ---- batches ----

  /** The first row of `u` has one more strike; every other row is as it was. */
  lemma BumpMeans(queue: seq<Row>, u: Uid)
    ensures var q := Bump(queue, u);
      |q| == |queue| && forall i :: 0 <= i < |queue| ==>
        q[i] == if FirstOfUid(queue, {}, i) && queue[i].uid == u then queue[i].(strikes := queue[i].strikes + 1)
                else queue[i]
  {
    if queue != [] && queue[0].uid != u {
      var tail := queue[1..];
      BumpMeans(tail, u);
      forall i | 0 < i < |queue| && queue[i].uid == u
        ensures FirstOfUid(queue, {}, i) <==> FirstOfUid(tail, {}, i - 1)
      {
        FirstInTail(queue, i);
      }
    }
  }

  lemma FirstInTail(queue: seq<Row>, i: nat)
    requires 0 < i < |queue| && queue[0].uid != queue[i].uid
    ensures FirstOfUid(queue, {}, i) <==> FirstOfUid(queue[1..], {}, i - 1)
  {
    assert forall j :: 0 <= j < i - 1 ==> queue[1..][j] == queue[j + 1];
    assert forall j :: 1 <= j < i ==> queue[j] == queue[1..][j - 1];
  }

  /** The strike counted on the first queued row of `u`, or on a synthetic one, archives the job with the
      payload of that row at the threshold; otherwise it stays queued with its strike. */
  lemma SweepOneMeansStrike(s: Sweep, p: Policy, u: Uid, f: Faults, row: Option<Row>)
    requires if row.Some? then exists i :: FirstOfUid(s.queue, {}, i) && s.queue[i].uid == u && s.queue[i] == row.value
             else forall i :: 0 <= i < |s.queue| ==> s.queue[i].uid != u
    ensures var t := SweepOne(s, p, u, f);
      if (if row.Some? then row.value.strikes else 0) + 1 >= p.threshold && !f.single(u) then
        && t.kept == s.kept && Lose(Bump(s.queue, u), t.queue, {u})
        && Fails(s.w.disk, u, p.strikeMeta, if row.Some? then row.value.payload else None, t.w.disk)
        && Changed(s.w.mem.failed, t.w.mem.failed, u, Some(p.normalize(p.strikeMeta)))
        && Changed(s.w.mem.successes, t.w.mem.successes, u, None) && t.w.mem.queue == s.w.mem.queue
      else t.kept && t.w == s.w && t.queue == Bump(s.queue, u)
  {
    RowOfIsFirst(s.queue, u);
    assert RowOf(s.queue, u) == row;
    WithoutLoses(Bump(s.queue, u), {u});
    FailureDoes(s.w.disk, u, p.strikeMeta, if row.Some? then row.value.payload else None);
    MarkMeans(s.w.mem, u, p.normalize(p.strikeMeta));
  }

  lemma RowOfIsFirst(queue: seq<Row>, u: Uid)
    ensures RowOf(queue, u).Some? <==> exists i :: FirstOfUid(queue, {}, i) && queue[i].uid == u
    ensures forall i :: FirstOfUid(queue, {}, i) && queue[i].uid == u ==> RowOf(queue, u) == Some(queue[i])
  {
    if queue != [] {
      if queue[0].uid == u {
        assert FirstOfUid(queue, {}, 0);
      } else {
        RowOfIsFirst(queue[1..], u);
        forall i | 0 < i < |queue| && queue[i].uid == u
          ensures FirstOfUid(queue, {}, i) <==> FirstOfUid(queue[1..], {}, i - 1)
        {
          FirstInTail(queue, i);
        }
        if i :| FirstOfUid(queue[1..], {}, i) && queue[1..][i].uid == u {
          assert FirstOfUid(queue, {}, i + 1);
        }
      }
    }
  }

  /** After a committed batch memory has lost the named rows and records `record` of the last entry of
      every named job; no other job's record changes. */
  lemma BatchFailedMeans(m: Mem, record: Meta -> Meta, batch: seq<(Uid, Meta)>)
    ensures var n := BatchFailed(m, record, batch);
      && Lose(m.queue, n.queue, BatchUids(batch)) && n.cursors == m.cursors
      && RecordedBy(m, record, batch, n)
  {
    WithoutLoses(m.queue, BatchUids(batch));
    RecordAllMeans(m.ReplaceQueue(Without(m.queue, BatchUids(batch))), record, batch);
  }

  ghost predicate RecordedBy(m: Mem, record: Meta -> Meta, batch: seq<(Uid, Meta)>, n: Mem) {
    && n.failed.Keys == m.failed.Keys + BatchUids(batch)
    && (forall i :: LastOfUid(batch, i) ==> batch[i].0 in n.failed && n.failed[batch[i].0] == record(batch[i].1))
    && (forall u :: u in m.failed && u !in BatchUids(batch) ==> u in n.failed && n.failed[u] == m.failed[u])
    && Dropped(m.successes, n.successes, BatchUids(batch)) && n.inFlight == m.inFlight - BatchUids(batch)
  }

  lemma {:induction false} RecordAllMeans(m: Mem, record: Meta -> Meta, batch: seq<(Uid, Meta)>)
    ensures var n := RecordAll(m, record, batch);
      n.queue == m.queue && n.cursors == m.cursors && RecordedBy(m, record, batch, n)
  {
    if batch != [] {
      var front, last := batch[..|batch| - 1], batch[|batch| - 1];
      RecordAllMeans(m, record, front);
      assert batch == front + [last];
      RecordedOneMore(m, record, front, last, RecordAll(m, record, front));
    }
  }

  lemma RecordedOneMore(m: Mem, record: Meta -> Meta, batch: seq<(Uid, Meta)>, e: (Uid, Meta), n: Mem)
    requires RecordedBy(m, record, batch, n)
    ensures RecordedBy(m, record, batch + [e], n.MarkFailed(e.0, record(e.1)).Unregister(e.0))
  {
    var more := batch + [e];
    assert BatchUids(more) == BatchUids(batch) + {e.0} by {
      assert forall x :: x in more <==> x in batch || x == e;
      assert e in more;
    }
    forall i | LastOfUid(more, i) && i < |batch| ensures LastOfUid(batch, i) && more[i].0 != e.0 {
      assert more[|batch|] == e;
      assert forall j :: i < j < |batch| ==> more[j] == batch[j];
    }
  }

  /** A sweep in which nobody's commit fails and everybody is at the threshold keeps nobody. */
  lemma {:induction false} SweepFinishes(s: Sweep, p: Policy, uids: seq<Uid>, f: Faults)
    requires NoRepeats(uids) && !s.kept
    requires forall u :: u in uids ==>
      !f.single(u) && RowOf(s.queue, u).Some? && RowOf(s.queue, u).value.strikes + 1 >= p.threshold
    ensures var t := SweepAll(s, p, uids, f);
      !t.kept && forall u :: u !in uids ==> RowOf(t.queue, u) == RowOf(s.queue, u)
  {
    if uids != [] {
      var front, u := uids[..|uids| - 1], uids[|uids| - 1];
      assert uids == front + [u];
      AppendOne(front, u);
      SweepFinishes(s, p, front, f);
      var t := SweepAll(s, p, front, f);
      forall v | v != u ensures RowOf(Without(Bump(t.queue, u), {u}), v) == RowOf(t.queue, v) {
        OtherRowStays(t.queue, u, v);
      }
    }
  }

  lemma OtherRowStays(queue: seq<Row>, u: Uid, v: Uid)
    requires u != v
    ensures RowOf(Without(Bump(queue, u), {u}), v) == RowOf(queue, v)
  {
    RowSurvives(Bump(queue, u), u, v);
    BumpLeavesOthers(queue, u, v);
  }

  lemma RowSurvives(queue: seq<Row>, u: Uid, v: Uid)
    requires u != v
    ensures RowOf(Without(queue, {u}), v) == RowOf(queue, v)
  {
    if queue != [] {
      var rest := Without(queue[1..], {u});
      RowSurvives(queue[1..], u, v);
      if queue[0].uid == u {
        assert [] + rest == rest;
      } else {
        assert ([queue[0]] + rest)[1..] == rest;
      }
    }
  }

  lemma BumpLeavesOthers(queue: seq<Row>, u: Uid, v: Uid)
    requires u != v
    ensures RowOf(Bump(queue, u), v) == RowOf(queue, v)
  {
    if queue != [] && queue[0].uid != u {
      BumpLeavesOthers(queue[1..], u, v);
      assert Bump(queue, u)[1..] == Bump(queue[1..], u);
    } else if queue != [] {
      assert Bump(queue, u)[1..] == queue[1..];
    }
  }

  /** So such a batch returns although it could not be committed as one. */
  lemma BatchOfStruckReturns(w: World, p: Policy, record: Meta -> Meta, batch: seq<(Uid, Meta)>, f: Faults)
    requires NoRepeats(UidsOf(batch))
    requires forall u :: u in BatchUids(batch) ==>
      !f.single(u) && RowOf(w.mem.queue, u).Some? && RowOf(w.mem.queue, u).value.strikes + 1 >= p.threshold
    ensures FailBatch(w, p, record, batch, f).1 == Returned
  {
    UidsOfBatch(batch);
    SweepFinishes(Sweep(w, w.mem.queue, false), p, UidsOf(batch), f);
  }
}
