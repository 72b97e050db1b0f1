/** Disk and memory together: what each transactional exit does to both, and the invariant
    that memory mirrors the disk. */
module Mirror {
  import opened Jobs
  import opened State
  import opened Disk

  datatype Exit = Returned | CrashSignal | Terminated

  datatype World = World(disk: Disk, mem: Mem)

  /** Fixed parameters of the store: the strike threshold, the metadata normalisation of the
      failure archive, and the metadata recorded for strikes and cascades. */
  datatype Policy = Policy(threshold: nat, normalize: Meta -> Meta, strikeMeta: Meta, cascadeMeta: Uid -> Meta)

  /** Which backend commits fail during one call. */
  datatype Faults = Faults(commit: bool, strike: bool, batch: bool, single: Uid -> bool)

  function Struck(row: Row): Row { row.(strikes := row.strikes + 1) }

  // ---- single-job exits ----

  /** A failed commit: count it on the row; at the threshold archive the job, otherwise (or if
      the archive write fails too) put it back at the head of memory and crash. */
  function CommitStrike(w: World, p: Policy, u: Uid, row: Row, archiveFault: bool): (World, Exit) {
    var r := Struck(row);
    if r.strikes >= p.threshold && !archiveFault then
      (World(w.disk.CommitFailure(u, p.strikeMeta, r.payload),
             w.mem.MarkFailed(u, p.normalize(p.strikeMeta)).Unregister(u)), Terminated)
    else
      (World(w.disk, w.mem.Unregister(u).Spawn([r], true)), CrashSignal)
  }

  function ApplySuccess(w: World, p: Policy, c: SuccessCommit, row: Row, f: Faults): (World, Exit) {
    var (d, reply) := if f.commit then (w.disk, Flag(false)) else w.disk.CommitSuccess(c);
    if reply == Flag(true) then
      (World(d, w.mem.Spawn(c.spawned, true).UpdateCursors(c.cursors).MarkSuccess(c.uid, c.meta).Unregister(c.uid)),
       Returned)
    else CommitStrike(w, p, c.uid, row, f.strike)
  }

  /** A permanent failure, without its cascade. */
  function ArchiveFailure(w: World, p: Policy, u: Uid, m: Meta, row: Row): World {
    var n := p.normalize(m);
    World(w.disk.CommitFailure(u, n, row.payload), w.mem.MarkFailed(u, p.normalize(n)).Unregister(u))
  }

  function ApplyRetry(w: World, p: Policy, u: Uid, row: Row, retry: Row, front: bool, f: Faults): (World, Exit) {
    var (d, reply) := if f.commit then (w.disk, Flag(false)) else w.disk.CommitRetry(u, retry, front);
    if reply == Flag(true) then (World(d, w.mem.Unregister(u).Spawn([retry], front)), Returned)
    else CommitStrike(w, p, u, row, f.strike)
  }

  function ApplySkip(w: World, u: Uid, row: Option<Row>, f: Faults): (World, Exit) {
    if !f.commit then (World(w.disk.CommitSkip(u), w.mem.RemoveQueued(u).Unregister(u)), Returned)
    else
      var m := w.mem.Unregister(u);
      (World(w.disk, if row.Some? then m.Spawn([row.value], true) else m), CrashSignal)
  }

  // ---- batch exits ----

  /** The first row of `u` gets one more strike. */
  function Bump(queue: seq<Row>, u: Uid): seq<Row> {
    if queue == [] then []
    else if queue[0].uid == u then [Struck(queue[0])] + queue[1..]
    else [queue[0]] + Bump(queue[1..], u)
  }

  /** The row a strike on `u` is counted on: the queued one, or none (a synthetic row that has
      no strikes yet and no payload). */
  function RowOf(queue: seq<Row>, u: Uid): Option<Row> {
    if queue == [] then None else if queue[0].uid == u then Some(queue[0]) else RowOf(queue[1..], u)
  }

  datatype Sweep = Sweep(w: World, queue: seq<Row>, kept: bool)

  /** One uid of a failed batch commit. */
  function SweepOne(s: Sweep, p: Policy, u: Uid, f: Faults): Sweep {
    var row := RowOf(s.queue, u);
    var strikes := if row.Some? then row.value.strikes + 1 else 1;
    var bumped := Bump(s.queue, u);
    if strikes >= p.threshold && !f.single(u) then
      Sweep(World(s.w.disk.CommitFailure(u, p.strikeMeta, if row.Some? then row.value.payload else None),
                  s.w.mem.MarkFailed(u, p.normalize(p.strikeMeta))),
            Without(bumped, {u}), s.kept)
    else Sweep(s.w, bumped, true)
  }

  function SweepAll(s: Sweep, p: Policy, uids: seq<Uid>, f: Faults): Sweep {
    if uids == [] then s else SweepOne(SweepAll(s, p, uids[..|uids| - 1], f), p, uids[|uids| - 1], f)
  }

  /** A batch of failures: one commit; if it fails, strike every uid in turn. Memory records
      `record` of the metadata written to disk. */
  function FailBatch(w: World, p: Policy, record: Meta -> Meta, batch: seq<(Uid, Meta)>, f: Faults): (World, Exit) {
    if !f.batch then
      (World(w.disk.CommitFailures(batch), BatchFailed(w.mem, record, batch)), Returned)
    else
      var s := SweepAll(Sweep(w, w.mem.queue, false), p, UidsOf(batch), f);
      (World(s.w.disk, s.w.mem.ReplaceQueue(s.queue)), if s.kept then CrashSignal else Returned)
  }

  function UidsOf(batch: seq<(Uid, Meta)>): seq<Uid> {
    seq(|batch|, i requires 0 <= i < |batch| => batch[i].0)
  }

  /** Memory after a batch commit: rows gone, failures recorded, nothing of it in flight. */
  function BatchFailed(m: Mem, record: Meta -> Meta, batch: seq<(Uid, Meta)>): Mem {
    RecordAll(m.ReplaceQueue(Without(m.queue, BatchUids(batch))), record, batch)
  }

  function RecordAll(m: Mem, record: Meta -> Meta, batch: seq<(Uid, Meta)>): Mem {
    if batch == [] then m
    else
      var (u, meta) := batch[|batch| - 1];
      RecordAll(m, record, batch[..|batch| - 1]).MarkFailed(u, record(meta)).Unregister(u)
  }

  // ---- the mirror ----

  /** Equal terminal key sets and cursors on both sides; no uid both succeeded and failed. */
  ghost predicate SameRecords(d: Disk, m: Mem) {
    && d.successes.Keys == m.successes.Keys && d.failed.Keys == m.failed.Keys && d.cursors == m.cursors
    && m.successes.Keys !! m.failed.Keys
  }

  /** The disk queue holds the memory queue, the in-flight jobs, what other processes enqueued
      since the last load (`foreign`), and the jobs in the middle of a transition (`limbo`). */
  ghost predicate SameQueue(disk: set<Uid>, queued: set<Uid>, inFlight: set<Uid>, foreign: set<Uid>, limbo: set<Uid>) {
    && disk == queued + inFlight + foreign + limbo
    && queued !! inFlight && foreign !! queued + inFlight + limbo
  }

  /** Memory mirrors the disk. */
  ghost predicate Mirrors(w: World, foreign: set<Uid>, limbo: set<Uid>) {
    && SameRecords(w.disk, w.mem) && w.disk.WellFormed()
    && SameQueue(UidSet(w.disk.queue), w.mem.QueueUids(), w.mem.inFlight, foreign, limbo)
  }

  /** `u` is the job being settled: it has a disk row, and no memory row. */
  ghost predicate Settling(w: World, foreign: set<Uid>, u: Uid) {
    Mirrors(w, foreign, {u}) && u !in w.mem.QueueUids()
  }

  lemma UidsOfOne(row: Row)
    ensures UidSet([row]) == {row.uid}
  {
    assert row in [row];
  }

  /** Putting a row of a new uid into a queue, at either end. */
  lemma PutRow(queue: seq<Row>, row: Row)
    ensures UidSet([row] + queue) == UidSet(queue) + {row.uid} == UidSet(queue + [row])
    ensures DistinctUids(queue) && row.uid !in UidSet(queue) ==>
      DistinctUids([row] + queue) && DistinctUids(queue + [row])
  {
    UidsOfOne(row);
    UidSetAppend([row], queue);
    UidSetAppend(queue, [row]);
    if DistinctUids(queue) && row.uid !in UidSet(queue) {
      DistinctJoin([row], queue);
    }
  }

  function Popped(w: World, i: nat): World
    requires i < |w.mem.queue|
  {
    World(w.disk, w.mem.(queue := w.mem.queue[..i] + w.mem.queue[i + 1..]))
  }

  /** A job popped from the queue is settling. */
  lemma PopSettles(w: World, foreign: set<Uid>, i: nat)
    requires Mirrors(w, foreign, {}) && DistinctUids(w.mem.queue) && i < |w.mem.queue|
    ensures Settling(Popped(w, i), foreign, w.mem.queue[i].uid) && w.mem.queue[i].uid !in w.mem.inFlight
    ensures DistinctUids(Popped(w, i).mem.queue)
  {
    PopUids(w.mem.queue, i);
  }

  /** Moving the job being settled to the failure archive on both sides. */
  lemma ArchiveMirrors(w: World, u: Uid, onDisk: Meta, payload: Option<Payload>, inMemory: Meta, foreign: set<Uid>)
    requires Settling(w, foreign, u)
    ensures Mirrors(World(w.disk.CommitFailure(u, onDisk, payload), w.mem.MarkFailed(u, inMemory).Unregister(u)),
                    foreign, {})
  {
    ApplyKeepsWellFormed(w.disk, OpFailure(u, onDisk, payload));
    WithoutUids(w.disk.queue, {u});
  }

  /** Putting the job being settled back into memory, the disk untouched. */
  lemma PutBackMirrors(w: World, u: Uid, row: Row, front: bool, foreign: set<Uid>)
    requires Settling(w, foreign, u) && row.uid == u
    ensures Mirrors(World(w.disk, w.mem.Unregister(u).Spawn([row], front)), foreign, {})
  {
    PutRow(w.mem.queue, row);
  }

  lemma StrikeMirrors(w: World, p: Policy, u: Uid, row: Row, fault: bool, foreign: set<Uid>)
    requires Settling(w, foreign, u) && row.uid == u
    ensures Mirrors(CommitStrike(w, p, u, row, fault).0, foreign, {})
    ensures DistinctUids(w.mem.queue) ==> DistinctUids(CommitStrike(w, p, u, row, fault).0.mem.queue)
  {
    var r := Struck(row);
    if r.strikes >= p.threshold && !fault {
      ArchiveMirrors(w, u, p.strikeMeta, r.payload, p.normalize(p.strikeMeta), foreign);
    } else {
      PutBackMirrors(w, u, r, true, foreign);
      PutRow(w.mem.queue, r);
    }
  }

  lemma SuccessMirrors(w: World, p: Policy, c: SuccessCommit, row: Row, f: Faults, foreign: set<Uid>)
    requires Settling(w, foreign, c.uid) && row.uid == c.uid
    ensures Mirrors(ApplySuccess(w, p, c, row, f).0, foreign, {})
    ensures DistinctUids(w.mem.queue) ==> DistinctUids(ApplySuccess(w, p, c, row, f).0.mem.queue)
  {
    if !f.commit && w.disk.CommitSuccess(c).1 == Flag(true) {
      SpawnedAreNew(w, c, foreign);
      ApplyKeepsWellFormed(w.disk, OpSuccess(c));
    } else {
      StrikeMirrors(w, p, c.uid, row, f.strike, foreign);
    }
  }

  /** A committed success spawns only uids that are new to both queues. */
  lemma SpawnedAreNew(w: World, c: SuccessCommit, foreign: set<Uid>)
    requires Settling(w, foreign, c.uid) && w.disk.CommitSuccess(c).1 == Flag(true)
    ensures UidSet(w.disk.CommitSuccess(c).0.queue) == UidSet(w.disk.queue) - {c.uid} + UidSet(c.spawned)
    ensures UidSet(c.spawned + w.mem.queue) == UidSet(w.mem.queue) + UidSet(c.spawned)
    ensures UidSet(c.spawned) !! UidSet(w.disk.queue) - {c.uid}
    ensures DistinctUids(w.mem.queue) ==> DistinctUids(c.spawned + w.mem.queue)
  {
    var rest := Without(w.disk.queue, {c.uid});
    WithoutUids(w.disk.queue, {c.uid});
    KeepFirstFixed(c.spawned, UidSet(rest));
    UidSetAppend(c.spawned, rest);
    UidSetAppend(c.spawned, w.mem.queue);
    assert w.mem.QueueUids() <= UidSet(rest);
    if DistinctUids(w.mem.queue) {
      DistinctJoin(c.spawned, w.mem.queue);
    }
  }

  lemma FailureMirrors(w: World, p: Policy, u: Uid, m: Meta, row: Row, foreign: set<Uid>)
    requires Settling(w, foreign, u)
    ensures Mirrors(ArchiveFailure(w, p, u, m, row), foreign, {})
  {
    ArchiveMirrors(w, u, p.normalize(m), row.payload, p.normalize(p.normalize(m)), foreign);
  }

  /** `u` has no disk row and no memory row: a spawned job that was rejected, say. */
  ghost predicate Unqueued(w: World, foreign: set<Uid>, u: Uid) {
    Mirrors(w, foreign, {}) && u !in UidSet(w.disk.queue)
  }

  /** The failure of an unqueued job is archived on both sides. */
  lemma UnqueuedArchives(w: World, u: Uid, onDisk: Meta, payload: Option<Payload>, inMemory: Meta, foreign: set<Uid>)
    requires Unqueued(w, foreign, u)
    ensures Mirrors(World(w.disk.CommitFailure(u, onDisk, payload), w.mem.MarkFailed(u, inMemory).Unregister(u)),
                    foreign, {})
  {
    ApplyKeepsWellFormed(w.disk, OpFailure(u, onDisk, payload));
    WithoutUids(w.disk.queue, {u});
  }

  /** If that cannot be committed, memory leads the disk by its row until the next merge, unless
      the strike archives it. */
  lemma UnqueuedStrike(w: World, p: Policy, u: Uid, row: Row, fault: bool, foreign: set<Uid>)
    requires Unqueued(w, foreign, u) && row.uid == u
    ensures Mirrors(CommitStrike(w, p, u, row, fault).0, foreign, {}) <==>
      CommitStrike(w, p, u, row, fault).1 == Terminated
  {
    var r := Struck(row);
    if r.strikes >= p.threshold && !fault {
      UnqueuedArchives(w, u, p.strikeMeta, r.payload, p.normalize(p.strikeMeta), foreign);
    } else {
      PutRow(w.mem.queue, r);
      assert u in CommitStrike(w, p, u, row, fault).0.mem.QueueUids();
    }
  }

  /** Re-inserting the same uid always commits and leaves the disk's uid set alone. */
  lemma RequeueOnDisk(d: Disk, u: Uid, retry: Row, front: bool)
    requires d.WellFormed() && retry.uid == u && u in UidSet(d.queue)
    ensures var (e, reply) := d.CommitRetry(u, retry, front);
      reply == Flag(true) && e == d.(queue := e.queue) && UidSet(e.queue) == UidSet(d.queue) && e.WellFormed()
  {
    WithoutUids(d.queue, {u});
    WithoutDistinct(d.queue, {u});
    PutRow(Without(d.queue, {u}), retry);
  }

  lemma RetryMirrors(w: World, p: Policy, u: Uid, row: Row, retry: Row, front: bool, f: Faults, foreign: set<Uid>)
    requires Settling(w, foreign, u) && row.uid == u && retry.uid == u
    ensures Mirrors(ApplyRetry(w, p, u, row, retry, front, f).0, foreign, {})
    ensures DistinctUids(w.mem.queue) ==> DistinctUids(ApplyRetry(w, p, u, row, retry, front, f).0.mem.queue)
  {
    if !f.commit {
      RequeueOnDisk(w.disk, u, retry, front);
      PutBackMirrors(w, u, retry, front, foreign);
      PutRow(w.mem.queue, retry);
    } else {
      StrikeMirrors(w, p, u, row, f.strike, foreign);
    }
  }

  /** A skip of a job that is queued, in flight or popped mirrors whatever happens if and only
      if, on a failed commit, its row is put back or was still in the memory queue. */
  lemma SkipMirrors(w: World, u: Uid, row: Option<Row>, f: Faults, foreign: set<Uid>)
    requires Mirrors(w, foreign, {u}) && (row.Some? ==> row.value.uid == u)
    ensures Mirrors(ApplySkip(w, u, row, f).0, foreign, {}) <==> !f.commit || row.Some? || u in w.mem.QueueUids()
  {
    if !f.commit {
      SkippedMirrors(w, u, foreign);
    } else if row.Some? {
      PutRow(w.mem.queue, row.value);
      assert Mirrors(World(w.disk, w.mem.Unregister(u).Spawn([row.value], true)), foreign, {});
    } else if u in w.mem.QueueUids() {
      assert Mirrors(World(w.disk, w.mem.Unregister(u)), foreign, {});
    } else {
      assert u in UidSet(w.disk.queue) && u !in foreign;
    }
  }

  lemma SkippedMirrors(w: World, u: Uid, foreign: set<Uid>)
    requires Mirrors(w, foreign, {u})
    ensures Mirrors(World(w.disk.CommitSkip(u), w.mem.RemoveQueued(u).Unregister(u)), foreign, {})
  {
    WithoutDistinct(w.disk.queue, {u});
    WithoutUids(w.disk.queue, {u});
    WithoutUids(w.mem.queue, {u});
  }

  /** After a failed skip commit the memory queue lists the job twice exactly when it was still
      queued and its row is put back. */
  lemma SkipDuplicates(w: World, u: Uid, row: Option<Row>, f: Faults)
    requires DistinctUids(w.mem.queue) && (row.Some? ==> row.value.uid == u)
    ensures DistinctUids(ApplySkip(w, u, row, f).0.mem.queue) <==> !(f.commit && row.Some? && u in w.mem.QueueUids())
  {
    WithoutDistinct(w.mem.queue, {u});
    if row.Some? {
      PutRow(w.mem.queue, row.value);
      if u in w.mem.QueueUids() {
        var k :| 0 <= k < |w.mem.queue| && w.mem.queue[k].uid == u;
        assert ([row.value] + w.mem.queue)[k + 1].uid == ([row.value] + w.mem.queue)[0].uid;
      }
    }
  }

  // ---- batches ----

  lemma BumpUids(queue: seq<Row>, u: Uid)
    ensures UidSet(Bump(queue, u)) == UidSet(queue)
    ensures DistinctUids(queue) ==> DistinctUids(Bump(queue, u))
  {
    if queue != [] {
      var head, tail := queue[0], queue[1..];
      assert queue == [head] + tail;
      PutRow(tail, head);
      if head.uid == u {
        PutRow(tail, Struck(head));
        if DistinctUids(queue) { DistinctTail(queue); }
      } else {
        BumpUids(tail, u);
        PutRow(Bump(tail, u), head);
        if DistinctUids(queue) { DistinctTail(queue); }
      }
    }
  }

  lemma DistinctTail(queue: seq<Row>)
    requires DistinctUids(queue) && queue != []
    ensures DistinctUids(queue[1..]) && queue[0].uid !in UidSet(queue[1..])
  {
    forall u | u in UidSet(queue[1..]) ensures u != queue[0].uid {
      var i :| 0 <= i < |queue[1..]| && queue[1..][i].uid == u;
      assert queue[i + 1].uid != queue[0].uid;
    }
  }

  /** During a sweep the disk and the rows still to be kept agree. */
  ghost predicate Sweeping(s: Sweep, foreign: set<Uid>) {
    && SameRecords(s.w.disk, s.w.mem) && s.w.disk.WellFormed()
    && SameQueue(UidSet(s.w.disk.queue), UidSet(s.queue), s.w.mem.inFlight, foreign, {})
  }

  lemma SweepOneMirrors(s: Sweep, p: Policy, u: Uid, f: Faults, foreign: set<Uid>)
    requires Sweeping(s, foreign) && u !in s.w.mem.inFlight && u !in foreign
    ensures Sweeping(SweepOne(s, p, u, f), foreign)
    ensures SweepOne(s, p, u, f).w.mem.inFlight == s.w.mem.inFlight
    ensures DistinctUids(s.queue) ==> DistinctUids(SweepOne(s, p, u, f).queue)
  {
    BumpUids(s.queue, u);
    var row := RowOf(s.queue, u);
    var strikes := if row.Some? then row.value.strikes + 1 else 1;
    if strikes >= p.threshold && !f.single(u) {
      var payload := if row.Some? then row.value.payload else None;
      SweptMirrors(s, Bump(s.queue, u), u, p.strikeMeta, payload, p.normalize(p.strikeMeta), foreign);
    }
  }

  /** One swept job archived on its own. */
  lemma SweptMirrors(s: Sweep, bumped: seq<Row>, u: Uid, onDisk: Meta, payload: Option<Payload>, inMemory: Meta,
                     foreign: set<Uid>)
    requires Sweeping(s, foreign) && u !in s.w.mem.inFlight && u !in foreign
    requires UidSet(bumped) == UidSet(s.queue)
    ensures Sweeping(Sweep(World(s.w.disk.CommitFailure(u, onDisk, payload), s.w.mem.MarkFailed(u, inMemory)),
                           Without(bumped, {u}), s.kept), foreign)
    ensures DistinctUids(bumped) ==> DistinctUids(Without(bumped, {u}))
  {
    ApplyKeepsWellFormed(s.w.disk, OpFailure(u, onDisk, payload));
    WithoutUids(bumped, {u});
    WithoutUids(s.w.disk.queue, {u});
    if DistinctUids(bumped) {
      WithoutDistinct(bumped, {u});
    }
  }

  lemma {:induction false} SweepMirrors(s: Sweep, p: Policy, uids: seq<Uid>, f: Faults, foreign: set<Uid>)
    requires Sweeping(s, foreign) && SetOf(uids) !! s.w.mem.inFlight && SetOf(uids) !! foreign
    ensures Sweeping(SweepAll(s, p, uids, f), foreign)
    ensures SweepAll(s, p, uids, f).w.mem.inFlight == s.w.mem.inFlight
    ensures DistinctUids(s.queue) ==> DistinctUids(SweepAll(s, p, uids, f).queue)
  {
    if uids != [] {
      var front, u := uids[..|uids| - 1], uids[|uids| - 1];
      assert uids == front + [u];
      AppendOne(front, u);
      SweepMirrors(s, p, front, f, foreign);
      SweepOneMirrors(SweepAll(s, p, front, f), p, u, f, foreign);
    }
  }

  lemma {:induction false} RecordAllKeys(m: Mem, record: Meta -> Meta, batch: seq<(Uid, Meta)>)
    ensures var r := RecordAll(m, record, batch);
      && r.queue == m.queue && r.cursors == m.cursors && r.inFlight == m.inFlight - BatchUids(batch)
      && r.failed.Keys == m.failed.Keys + BatchUids(batch) && r.successes.Keys == m.successes.Keys - BatchUids(batch)
  {
    if batch != [] {
      RecordAllKeys(m, record, batch[..|batch| - 1]);
      assert batch == batch[..|batch| - 1] + [batch[|batch| - 1]];
      assert BatchUids(batch) == BatchUids(batch[..|batch| - 1]) + {batch[|batch| - 1].0};
    }
  }

  lemma UidsOfBatch(batch: seq<(Uid, Meta)>)
    ensures SetOf(UidsOf(batch)) == BatchUids(batch)
  {
    forall u | u in SetOf(UidsOf(batch)) ensures u in BatchUids(batch) {
      var i :| 0 <= i < |UidsOf(batch)| && UidsOf(batch)[i] == u;
      assert batch[i] in batch;
    }
    forall u | u in BatchUids(batch) ensures u in SetOf(UidsOf(batch)) {
      var i :| 0 <= i < |batch| && batch[i].0 == u;
      assert UidsOf(batch)[i] == u;
    }
  }

  /** Failing a batch of queued jobs keeps the mirror, whether it commits, finishes by strikes,
      or crashes part-way. */
  lemma BatchMirrors(w: World, p: Policy, record: Meta -> Meta, batch: seq<(Uid, Meta)>, f: Faults, foreign: set<Uid>)
    requires Mirrors(w, foreign, {}) && BatchUids(batch) !! w.mem.inFlight && BatchUids(batch) !! foreign
    ensures Mirrors(FailBatch(w, p, record, batch, f).0, foreign, {})
    ensures DistinctUids(w.mem.queue) ==> DistinctUids(FailBatch(w, p, record, batch, f).0.mem.queue)
  {
    if !f.batch {
      CommittedBatchMirrors(w, record, batch, foreign);
    } else {
      UidsOfBatch(batch);
      SweepMirrors(Sweep(w, w.mem.queue, false), p, UidsOf(batch), f, foreign);
    }
  }

  lemma CommittedBatchMirrors(w: World, record: Meta -> Meta, batch: seq<(Uid, Meta)>, foreign: set<Uid>)
    requires Mirrors(w, foreign, {}) && BatchUids(batch) !! w.mem.inFlight && BatchUids(batch) !! foreign
    ensures Mirrors(World(w.disk.CommitFailures(batch), BatchFailed(w.mem, record, batch)), foreign, {})
    ensures DistinctUids(w.mem.queue) ==> DistinctUids(BatchFailed(w.mem, record, batch).queue)
  {
    var gone := BatchUids(batch);
    ApplyKeepsWellFormed(w.disk, OpFailures(batch));
    CommittedBatchKeys(w, record, batch);
    QueueLoses(UidSet(w.disk.queue), w.mem.QueueUids(), w.mem.inFlight, foreign, gone);
    if DistinctUids(w.mem.queue) {
      WithoutDistinct(w.mem.queue, gone);
    }
  }

  /** What a committed batch does to records and queue uids on both sides. */
  lemma CommittedBatchKeys(w: World, record: Meta -> Meta, batch: seq<(Uid, Meta)>)
    requires BatchUids(batch) !! w.mem.inFlight
    ensures var d, m, gone := w.disk.CommitFailures(batch), BatchFailed(w.mem, record, batch), BatchUids(batch);
      && d.successes.Keys == w.disk.successes.Keys - gone && m.successes.Keys == w.mem.successes.Keys - gone
      && d.failed.Keys == w.disk.failed.Keys + gone && m.failed.Keys == w.mem.failed.Keys + gone
      && d.cursors == w.disk.cursors && m.cursors == w.mem.cursors && m.inFlight == w.mem.inFlight
      && m.queue == Without(w.mem.queue, gone)
      && UidSet(d.queue) == UidSet(w.disk.queue) - gone && m.QueueUids() == w.mem.QueueUids() - gone
  {
    var gone := BatchUids(batch);
    WithoutUids(w.disk.queue, gone);
    WithoutUids(w.mem.queue, gone);
    FailAllKeys(w.disk.failed, batch);
    RecordAllKeys(w.mem.ReplaceQueue(Without(w.mem.queue, gone)), record, batch);
  }

  lemma QueueLoses(disk: set<Uid>, queued: set<Uid>, inFlight: set<Uid>, foreign: set<Uid>, gone: set<Uid>)
    requires SameQueue(disk, queued, inFlight, foreign, {}) && gone !! inFlight && gone !! foreign
    ensures SameQueue(disk - gone, queued - gone, inFlight, foreign, {})
  {
  }

  /** A batch of queued jobs leaves the in-flight jobs alone. */
  lemma BatchKeepsFlights(w: World, p: Policy, record: Meta -> Meta, batch: seq<(Uid, Meta)>, f: Faults)
    requires BatchUids(batch) !! w.mem.inFlight
    ensures FailBatch(w, p, record, batch, f).0.mem.inFlight == w.mem.inFlight
  {
    if !f.batch {
      RecordAllKeys(w.mem.ReplaceQueue(Without(w.mem.queue, BatchUids(batch))), record, batch);
    } else {
      SweepKeepsFlights(Sweep(w, w.mem.queue, false), p, UidsOf(batch), f);
    }
  }

  lemma SweepKeepsFlights(s: Sweep, p: Policy, uids: seq<Uid>, f: Faults)
    ensures SweepAll(s, p, uids, f).w.mem.inFlight == s.w.mem.inFlight
  {
    if uids != [] {
      SweepKeepsFlights(s, p, uids[..|uids| - 1], f);
    }
  }
}
