/** Crash-safe saving, load-time repair, and what survives a restart. */
module Recovery {
  import opened Jobs
  import opened State
  import opened Disk
  import Contract
  import opened SqliteBackend
  import opened Mirror
  import opened Store

  /** Disk-only rows first, in disk order; then the memory rows in memory order, each uid once. */
  function Merged(disk: seq<Row>, mem: seq<Row>): seq<Row> {
    Without(disk, UidSet(mem)) + KeepFirst(mem, {})
  }

  /** Load-time repair: the re-read disk order first, then snapshot rows the disk lost. */
  function Repaired(snapshot: seq<Row>, reread: seq<Row>): seq<Row> {
    KeepFirst(KeepFirst(reread, {}) + Without(snapshot, UidSet(reread)), {})
  }

  lemma MergedUids(disk: seq<Row>, mem: seq<Row>)
    ensures UidSet(Merged(disk, mem)) == UidSet(disk) + UidSet(mem)
    ensures DistinctUids(disk) ==> DistinctUids(Merged(disk, mem))
  {
    WithoutUids(disk, UidSet(mem));
    KeepFirstMeans(mem, {});
    UidSetAppend(Without(disk, UidSet(mem)), KeepFirst(mem, {}));
    if DistinctUids(disk) {
      WithoutDistinct(disk, UidSet(mem));
      DistinctJoin(Without(disk, UidSet(mem)), KeepFirst(mem, {}));
    }
  }

  /** Nothing is lost and nothing is altered: the merged queue holds every disk row whose uid
      memory does not have, and for every other uid memory's first row. */
  lemma MergedRows(disk: seq<Row>, mem: seq<Row>)
    ensures forall r :: r in Merged(disk, mem) <==> (r in disk && r.uid !in UidSet(mem)) || r in KeepFirst(mem, {})
    ensures forall u :: u in UidSet(mem) ==> RowOf(Merged(disk, mem), u) == RowOf(mem, u)
  {
    WithoutUids(disk, UidSet(mem));
    forall u | u in UidSet(mem) ensures RowOf(Merged(disk, mem), u) == RowOf(mem, u) {
      RowOfAppend(Without(disk, UidSet(mem)), KeepFirst(mem, {}), u);
      RowOfKeepFirst(mem, {}, u);
    }
  }

  lemma RowOfAppend(a: seq<Row>, b: seq<Row>, u: Uid)
    requires u !in UidSet(a)
    ensures RowOf(a + b, u) == RowOf(b, u)
  {
    if a == [] {
      assert a + b == b;
    } else {
      assert a[0] in a;
      assert (a + b)[1..] == a[1..] + b;
      assert a == [a[0]] + a[1..];
      UidSetAppend([a[0]], a[1..]);
      RowOfAppend(a[1..], b, u);
    }
  }

  lemma RowOfKeepFirst(rows: seq<Row>, seen: set<Uid>, u: Uid)
    requires u !in seen
    ensures RowOf(KeepFirst(rows, seen), u) == RowOf(rows, u)
  {
    if rows != [] && rows[0].uid != u {
      RowOfKeepFirst(rows[1..], if rows[0].uid in seen then seen else seen + {rows[0].uid}, u);
    }
  }

  /** Both orders are kept: the merged queue is the disk read off from front to back at the rows
      memory does not have, then memory read off from front to back at each first row of a uid. */
  lemma MergedOrder(disk: seq<Row>, mem: seq<Row>) returns (onDisk: seq<nat>, inMem: seq<nat>)
    ensures |Merged(disk, mem)| == |onDisk| + |inMem|
    ensures ReadOff(disk, onDisk, Merged(disk, mem)[..|onDisk|])
    ensures ReadOff(mem, inMem, Merged(disk, mem)[|onDisk|..])
    ensures forall i :: i in onDisk <==> 0 <= i < |disk| && disk[i].uid !in UidSet(mem)
    ensures forall i :: i in inMem <==> FirstOfUid(mem, {}, i)
  {
    onDisk := WithoutReadsOff(disk, UidSet(mem));
    inMem := KeepFirstReadsOff(mem, {});
    assert Merged(disk, mem)[..|onDisk|] == Without(disk, UidSet(mem));
    assert Merged(disk, mem)[|onDisk|..] == KeepFirst(mem, {});
  }

  /** Merging the same memory a second time changes nothing. */
  lemma MergeIdempotent(disk: seq<Row>, mem: seq<Row>)
    ensures Merged(Merged(disk, mem), mem) == Merged(disk, mem)
  {
    var gone, extra, kept := UidSet(mem), Without(disk, UidSet(mem)), KeepFirst(mem, {});
    WithoutUids(disk, gone);
    WithoutShrinks(extra, gone);
    assert UidSet(extra) * gone == {};
    KeepFirstMeans(mem, {});
    WithoutAll(kept, gone);
    WithoutAppend(extra, kept, gone);
    assert extra + [] == extra;
  }

  lemma WithoutAll(rows: seq<Row>, gone: set<Uid>)
    requires UidSet(rows) <= gone
    ensures Without(rows, gone) == []
  {
    if rows != [] {
      assert rows == [rows[0]] + rows[1..];
      UidSetAppend([rows[0]], rows[1..]);
      assert rows[0].uid in UidSet(rows);
      WithoutAll(rows[1..], gone);
    }
  }

  /** An enqueue another process commits before or after the merge survives it either way, and
      both orders end with the same jobs queued. */
  lemma EnqueueSurvivesMerge(d: Disk, mem: seq<Row>, added: seq<Row>, front: bool)
    ensures var before := Merged(d.Enqueue(added, front).0.queue, mem);
      var after := d.(queue := Merged(d.queue, mem)).Enqueue(added, front).0.queue;
      UidSet(added) <= UidSet(before) && UidSet(before) == UidSet(after)
  {
    EnqueueUids(d, added, front);
    MergedUids(d.Enqueue(added, front).0.queue, mem);
    MergedUids(d.queue, mem);
    EnqueueUids(d.(queue := Merged(d.queue, mem)), added, front);
  }

  lemma EnqueueUids(d: Disk, added: seq<Row>, front: bool)
    ensures UidSet(d.Enqueue(added, front).0.queue) == UidSet(d.queue) + UidSet(added)
  {
    var kept := KeepFirst(added, UidSet(d.queue));
    KeepFirstMeans(added, UidSet(d.queue));
    UidSetAppend(kept, d.queue);
    UidSetAppend(d.queue, kept);
  }

  /** Under the mirror the merge revives nothing: it queues exactly what the disk has queued. */
  lemma MergeRevivesNothing(w: World, foreign: set<Uid>, limbo: set<Uid>)
    requires Mirrors(w, foreign, limbo)
    ensures UidSet(Merged(w.disk.queue, w.mem.queue)) == UidSet(w.disk.queue)
  {
    MergedUids(w.disk.queue, w.mem.queue);
  }

  /** Reading back a stored queue and repairing it gives that queue. */
  lemma RepairRebuilds(queue: seq<Row>)
    requires DistinctUids(queue)
    ensures Repaired(queue, queue) == queue
  {
    KeepFirstFixed(queue, {});
    WithoutAll(queue, UidSet(queue));
    assert queue + [] == queue;
  }

  /** Repair never loses a row: everything in the snapshot or on the re-read disk is there, once. */
  lemma RepairUids(snapshot: seq<Row>, reread: seq<Row>)
    ensures DistinctUids(Repaired(snapshot, reread))
    ensures UidSet(Repaired(snapshot, reread)) == UidSet(snapshot) + UidSet(reread)
    ensures KeepFirst(reread, {}) <= Repaired(snapshot, reread)
  {
    var disk, extra := KeepFirst(reread, {}), Without(snapshot, UidSet(reread));
    KeepFirstMeans(reread, {});
    WithoutUids(snapshot, UidSet(reread));
    UidSetAppend(disk, extra);
    KeepFirstMeans(disk + extra, {});
    KeepFirstAppend(disk, extra, {});
    KeepFirstFixed(disk, {});
  }

  /** The memory a load builds from the disk: failed wins over a terminal overlap. */
  function Loaded(d: Disk): Mem {
    Mem(Repaired(d.queue, d.queue), {}, d.successes - d.failed.Keys, d.failed, d.cursors, {})
  }

  /** A load takes the stored order, each uid once, and what only failed or only succeeded; nothing runs and
      nothing counts as skipped. */
  lemma LoadMeans(d: Disk)
    ensures var m := Loaded(d);
      && Contract.Firsts(d.queue, {}, m.queue) && m.inFlight == {} && m.triggerSkipped == {}
      && m.failed == d.failed && m.cursors == d.cursors && Contract.Dropped(d.successes, m.successes, d.failed.Keys)
  {
    Contract.KeepFirstsOnly(d.queue, {});
    WithoutAll(d.queue, UidSet(d.queue));
    KeepFirstMeans(d.queue, {});
    KeepFirstFixed(KeepFirst(d.queue, {}), {});
    assert KeepFirst(d.queue, {}) + [] == KeepFirst(d.queue, {});
  }

  /** Repair keeps the first re-read row of every uid in order, then the snapshot's first rows of the
      uids that the re-read lost. */
  lemma RepairOrder(snapshot: seq<Row>, reread: seq<Row>)
    ensures exists kept: seq<Row>, lost: seq<Row> ::
      && Repaired(snapshot, reread) == kept + lost
      && Contract.Firsts(reread, {}, kept) && Contract.Firsts(snapshot, UidSet(reread), lost)
  {
    var kept, lost := KeepFirst(reread, {}), KeepFirst(snapshot, UidSet(reread));
    Contract.KeepFirstsOnly(reread, {});
    Contract.KeepFirstsOnly(snapshot, UidSet(reread));
    KeepFirstMeans(reread, {});
    KeepFirstFixed(kept, {});
    KeepFirstAppend(kept, Without(snapshot, UidSet(reread)), {});
    FirstsOfTheRest(snapshot, UidSet(reread), {});
    assert {} + UidSet(kept) == UidSet(reread) && UidSet(reread) + {} == UidSet(reread);
    assert Repaired(snapshot, reread) == kept + lost;
  }

  /** Dropping known uids first and then repeats is keeping the first rows of the unknown ones. */
  lemma FirstsOfTheRest(rows: seq<Row>, known: set<Uid>, seen: set<Uid>)
    ensures KeepFirst(Without(rows, known), known + seen) == KeepFirst(rows, known + seen)
  {
    if rows != [] {
      var rest := Without(rows[1..], known);
      if rows[0].uid in known {
        assert [] + rest == rest;
        FirstsOfTheRest(rows[1..], known, seen);
      } else {
        assert ([rows[0]] + rest)[1..] == rest;
        FirstsOfTheRest(rows[1..], known, seen);
        FirstsOfTheRest(rows[1..], known, seen + {rows[0].uid});
        assert known + (seen + {rows[0].uid}) == known + seen + {rows[0].uid};
      }
    }
  }

  /** Crash, save, restart. */
  function Restart(w: World): World {
    var d := w.disk.SaveQueue(Merged(w.disk.queue, w.mem.queue));
    World(d, Loaded(d))
  }

  /** Loading a well-formed disk on which no uid both succeeded and failed. */
  lemma LoadMirrors(d: Disk)
    requires d.WellFormed() && d.successes.Keys !! d.failed.Keys
    ensures Mirrors(World(d, Loaded(d)), {}, {}) && Loaded(d).queue == d.queue
  {
    RepairRebuilds(d.queue);
    assert d.successes - d.failed.Keys == d.successes;
  }

  /** A restart whose save finds a good disk leaves memory mirroring it, whatever memory held. */
  lemma RestartLoads(w: World)
    requires w.disk.WellFormed() && w.disk.successes.Keys !! w.disk.failed.Keys
    ensures Mirrors(Restart(w), {}, {}) && DistinctUids(Restart(w).mem.queue)
    ensures Restart(w).disk.queue == Restart(w).mem.queue == Merged(w.disk.queue, w.mem.queue)
    ensures UidSet(Restart(w).disk.queue) == UidSet(w.disk.queue) + UidSet(w.mem.queue)
  {
    var merged := Merged(w.disk.queue, w.mem.queue);
    MergedUids(w.disk.queue, w.mem.queue);
    KeepFirstFixed(merged, {});
    LoadMirrors(w.disk.SaveQueue(merged));
  }

  /** A restart after any mirrored crash gives a mirrored world again, with the same jobs on
      disk, nothing in flight, and memory holding exactly the disk queue. */
  lemma RestartMirrors(w: World, foreign: set<Uid>, limbo: set<Uid>)
    requires Mirrors(w, foreign, limbo)
    ensures Mirrors(Restart(w), {}, {}) && DistinctUids(Restart(w).mem.queue)
    ensures Restart(w).disk.queue == Restart(w).mem.queue == Merged(w.disk.queue, w.mem.queue)
    ensures UidSet(Restart(w).disk.queue) == UidSet(w.disk.queue)
  {
    RestartLoads(w);
  }

  // ---- strikes across restarts ----

  /** The job is popped from memory and registered in flight. */
  function Dispatched(w: World, u: Uid): World {
    w.(mem := w.mem.(queue := Without(w.mem.queue, {u})).Register(u))
  }

  /** One run that ends in a crash because `u`'s success could not be committed: the world when
      `u` was dispatched, and the world when the queue was saved. Whatever else the run did,
      `u`'s row was left alone before its dispatch and after its strike. */
  datatype CrashRun = CrashRun(dispatched: World, saved: World)

  ghost predicate CrashesOn(p: Policy, u: Uid, start: World, run: CrashRun) {
    && RowOf(start.mem.queue, u).Some?
    && RowOf(run.dispatched.mem.queue, u) == RowOf(start.mem.queue, u)
    && var row := RowOf(start.mem.queue, u).value;
       var (w, exit) := CommitStrike(Dispatched(run.dispatched, u), p, u, row, false);
       && exit == CrashSignal && RowOf(run.saved.mem.queue, u) == RowOf(w.mem.queue, u)
  }

  ghost predicate CrashesRepeatedly(p: Policy, u: Uid, start: World, runs: seq<CrashRun>) {
    forall i :: 0 <= i < |runs| ==> CrashesOn(p, u, StartOf(start, runs, i), runs[i])
  }

  /** The world run `i` starts from. */
  ghost function StartOf(start: World, runs: seq<CrashRun>, i: nat): World
    requires i <= |runs|
  {
    if i == 0 then start else Restart(runs[i - 1].saved)
  }

  lemma RowOfIn(queue: seq<Row>, u: Uid)
    ensures RowOf(queue, u).Some? <==> u in UidSet(queue)
    ensures RowOf(queue, u).Some? ==> RowOf(queue, u).value.uid == u && RowOf(queue, u).value in queue
  {
    if queue != [] {
      assert queue == [queue[0]] + queue[1..];
      UidSetAppend([queue[0]], queue[1..]);
      UidsOfOne(queue[0]);
      RowOfIn(queue[1..], u);
    }
  }

  /** A save and a reload keep memory's row of a job. */
  lemma RestartKeepsRow(w: World, u: Uid)
    requires RowOf(w.mem.queue, u).Some?
    ensures RowOf(Restart(w).mem.queue, u) == RowOf(w.mem.queue, u)
  {
    RowOfIn(w.mem.queue, u);
    MergedRows(w.disk.queue, w.mem.queue);
    var merged := Merged(w.disk.queue, w.mem.queue);
    var saved := KeepFirst(merged, {});
    RowOfKeepFirst(merged, {}, u);
    KeepFirstMeans(merged, {});
    RepairRebuilds(saved);
  }

  /** One crashing run, saved and reloaded, adds exactly one strike. */
  lemma CrashRunCounts(p: Policy, u: Uid, start: World, run: CrashRun)
    requires CrashesOn(p, u, start, run)
    ensures RowOf(Restart(run.saved).mem.queue, u) == Some(Struck(RowOf(start.mem.queue, u).value))
    ensures RowOf(start.mem.queue, u).value.strikes + 1 < p.threshold
  {
    ArchivedAtThreshold(p, u, run.dispatched);
    RestartKeepsRow(run.saved, u);
  }

  /** The counter is exact across restarts: after `n` crashing runs the reloaded row carries `n`
      more strikes, and is still below the threshold. */
  lemma {:induction false} StrikesSurviveRestarts(p: Policy, u: Uid, start: World, runs: seq<CrashRun>)
    requires RowOf(start.mem.queue, u).Some? && CrashesRepeatedly(p, u, start, runs)
    ensures var last := RowOf(StartOf(start, runs, |runs|).mem.queue, u);
      && last.Some? && last.value.strikes == RowOf(start.mem.queue, u).value.strikes + |runs|
      && (runs != [] ==> last.value.strikes < p.threshold)
  {
    if runs != [] {
      var n := |runs| - 1;
      var shorter := runs[..n];
      forall i | 0 <= i < n ensures CrashesOn(p, u, StartOf(start, shorter, i), shorter[i]) {
        assert StartOf(start, shorter, i) == StartOf(start, runs, i);
      }
      StrikesSurviveRestarts(p, u, start, shorter);
      CrashRunCounts(p, u, StartOf(start, runs, n), runs[n]);
    }
  }

  /** The archive happens at exactly the threshold: the next failing commit of a job with `k`
      strikes archives it if and only if `k + 1` reaches the threshold, and then its row is gone. */
  lemma ArchivedAtThreshold(p: Policy, u: Uid, w: World)
    requires RowOf(w.mem.queue, u).Some?
    ensures var row := RowOf(w.mem.queue, u).value;
      var (after, exit) := CommitStrike(Dispatched(w, u), p, u, row, false);
      && (exit == Terminated <==> row.strikes + 1 >= p.threshold)
      && (exit == Terminated ==>
          u in after.disk.failed && u !in UidSet(after.disk.queue) && u !in UidSet(after.mem.queue))
      && (exit == CrashSignal ==> RowOf(after.mem.queue, u) == Some(Struck(row)))
  {
    RowOfIn(w.mem.queue, u);
    WithoutUids(w.disk.queue, {u});
    WithoutUids(w.mem.queue, {u});
  }

  // ---- the computations ----

  /** The merge as the saving transaction runs it. */
  method Merge(disk: seq<Row>, mem: seq<Row>) returns (out: seq<Row>)
    ensures out == Merged(disk, mem)
  {
    var memUids := UidSet(mem);
    var extra: seq<Row> := [];
    for i := 0 to |disk|
      invariant extra == Without(disk[..i], memUids)
    {
      assert disk[..i + 1] == disk[..i] + [disk[i]];
      WithoutAppend(disk[..i], [disk[i]], memUids);
      if disk[i].uid !in memUids {
        extra := extra + [disk[i]];
      }
    }
    assert disk[..|disk|] == disk;
    var dedup := FirstOccurrences(mem);
    out := extra + dedup;
  }

  method FirstOccurrences(rows: seq<Row>) returns (out: seq<Row>)
    ensures out == KeepFirst(rows, {})
  {
    var seen: set<Uid> := {};
    out := [];
    for i := 0 to |rows|
      invariant out == KeepFirst(rows[..i], {}) && seen == UidSet(rows[..i])
    {
      assert rows[..i + 1] == rows[..i] + [rows[i]];
      KeepFirstAppend(rows[..i], [rows[i]], {});
      UidSetAppend(rows[..i], [rows[i]]);
      UidsOfOne(rows[i]);
      if rows[i].uid !in seen {
        seen := seen + {rows[i].uid};
        out := out + [rows[i]];
      }
    }
    assert rows[..|rows|] == rows;
  }

  method RepairQueueOnLoad(snapshot: seq<Row>, reread: seq<Row>) returns (clean: seq<Row>)
    ensures clean == Repaired(snapshot, reread)
  {
    var merged := FirstOccurrences(reread);
    KeepFirstMeans(reread, {});
    var diskUids := UidSet(merged);
    assert diskUids == UidSet(reread);
    ghost var base := merged;
    for i := 0 to |snapshot|
      invariant merged == base + Without(snapshot[..i], diskUids)
    {
      assert snapshot[..i + 1] == snapshot[..i] + [snapshot[i]];
      WithoutAppend(snapshot[..i], [snapshot[i]], diskUids);
      if snapshot[i].uid !in diskUids {
        merged := merged + [snapshot[i]];
      }
    }
    assert snapshot[..|snapshot|] == snapshot;
    clean := FirstOccurrences(merged);
  }

  /** Drop every success that is also failed, uid by uid. */
  method ConvergeTerminalOverlap(successes: map<Uid, Meta>, failed: map<Uid, Meta>)
    returns (kept: map<Uid, Meta>, overlap: set<Uid>)
    ensures overlap == successes.Keys * failed.Keys && kept == successes - overlap
  {
    overlap := successes.Keys * failed.Keys;
    kept := successes;
    var todo := overlap;
    while todo != {}
      invariant todo <= overlap && kept == successes - (overlap - todo)
    {
      var u :| u in todo;
      kept := kept - {u};
      todo := todo - {u};
    }
  }

  /** Converge the terminal tables: memory drops the overlapping successes, then the disk. */
  method ConvergeTables(backend: SqliteStateBackend) returns (kept: map<Uid, Meta>, failed: map<Uid, Meta>)
    requires backend.Valid()
    modifies backend
    ensures backend.Valid() && failed == backend.View().failed && kept == backend.View().successes
    ensures backend.View() ==
      old(backend.View()).(successes := old(backend.View()).successes - old(backend.View()).failed.Keys)
  {
    ghost var d := backend.View();
    failed := Metas(backend.failed);
    ghost var overlap;
    kept, overlap := DropOverlap(backend, failed);
    assert kept == d.successes - d.failed.Keys;
  }

  method DropOverlap(backend: SqliteStateBackend, failed: map<Uid, Meta>)
    returns (kept: map<Uid, Meta>, ghost gone: set<Uid>)
    requires backend.Valid()
    modifies backend
    ensures backend.Valid() && gone == old(backend.View()).successes.Keys * failed.Keys
    ensures kept == old(backend.View()).successes - gone
    ensures backend.View() == old(backend.View()).(successes := kept)
  {
    var overlap;
    kept, overlap := ConvergeTerminalOverlap(backend.successes, failed);
    var uids := Listed(overlap);
    var _ := backend.DeleteSuccesses(uids);
    gone := overlap;
  }

  /** Load, converge, repair: the disk loses only the overlapping successes, and memory is the
      loaded image of what is left. */
  method LoadAndRepair(backend: SqliteStateBackend) returns (state: PipelineState)
    requires backend.Valid()
    modifies backend
    ensures backend.Valid() && state.Valid() && fresh(state)
    ensures backend.View() ==
      old(backend.View()).(successes := old(backend.View()).successes - old(backend.View()).failed.Keys)
    ensures state.View() == Loaded(backend.View())
  {
    ghost var d := backend.View();
    var snapshot := backend.LoadQueue();
    var kept, failed := ConvergeTables(backend);
    var reread := backend.LoadQueue();
    var clean := RepairQueueOnLoad(snapshot, reread);
    assert kept - failed.Keys == kept;
    state := new PipelineState(kept, failed, backend.cursors, clean);
  }

  method Listed(s: set<Uid>) returns (uids: seq<Uid>)
    ensures SetOf(uids) == s
  {
    uids := [];
    var todo := s;
    while todo != {}
      invariant SetOf(uids) + todo == s
    {
      var u :| u in todo;
      AppendOne(uids, u);
      uids, todo := uids + [u], todo - {u};
    }
  }

  /** Save by merging into the disk truth inside one transaction; a failed save leaves the disk
      as it was. */
  method SaveQueueCrashSafe(store: StateStore, fault: bool)
    requires store.Valid()
    modifies store.backend
    ensures store.Valid() && store.Now().mem == old(store.Now().mem)
    ensures fault ==> store.Now() == old(store.Now())
    ensures !fault ==>
      var w := old(store.Now()); store.Now().disk == w.disk.SaveQueue(Merged(w.disk.queue, w.mem.queue))
  {
    var mem := store.state.queue;
    var reply := store.backend.ReplaceQueueAtomic(disk => Merged(disk, mem), fault);
  }
}
