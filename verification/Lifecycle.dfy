/** Whole runs: jobs popped, launched, settled, retried, failed in batches, skipped, requeued on
    abort, rejected before they were queued, enqueued by other processes, with crashes and restarts
    anywhere in between. */
module Lifecycle {
  import opened Jobs
  import opened State
  import opened Disk
  import opened Mirror
  import Memory
  import opened Recovery

  /** The engine between two steps: disk and memory, what other processes enqueued since the last
      load, the job popped but not yet launched, the rows kept beside the in-flight uids, whether
      a crash signal is on its way out, and every uid skipped so far. */
  datatype Node = Node(w: World, foreign: set<Uid>, popped: Option<Row>, flying: map<Uid, Row>, crashed: bool,
                       skipped: set<Uid>)
  {
    function Limbo(): set<Uid> { if popped.Some? then {popped.value.uid} else {} }
  }

  datatype Result = Succeed(c: SuccessCommit) | Fail(meta: Meta) | Retry(row: Row, front: bool) | Skip

  function Settle(w: World, p: Policy, row: Row, r: Result, f: Faults): (World, Exit) {
    match r
    case Succeed(c) => ApplySuccess(w, p, c, row, f)
    case Fail(meta) =>
      if f.commit then CommitStrike(w, p, row.uid, row, f.strike)
      else (ArchiveFailure(w, p, row.uid, meta, row), Returned)
    case Retry(again, front) => ApplyRetry(w, p, row.uid, row, again, front, f)
    case Skip => ApplySkip(w, row.uid, Some(row), f)
  }

  predicate ForJob(r: Result, u: Uid) {
    match r
    case Succeed(c) => c.uid == u
    case Fail(_) => true
    case Retry(row, _) => row.uid == u
    case Skip => true
  }

  datatype Event =
    | Pop(i: nat)
    | Launch
    | PutBack(row: Row, front: bool)
    | Finish(r: Result, f: Faults)
    | Reap(u: Uid, r: Result, f: Faults)
    | Requeue(u: Uid)
    | Reject(row: Row, meta: Meta, f: Faults, saved: bool)
    | FailQueued(batch: seq<(Uid, Meta)>, record: Meta -> Meta, f: Faults)
    | SkipQueued(row: Row, f: Faults)
    | Foreign(rows: seq<Row>, front: bool)
    | Trace(op: Op)
    | Restarted(saved: bool)
    | Torn(u: Uid, r: Result, f: Faults, requeued: bool, saved: bool)

  /** The next run, after the queue was saved or not. */
  function Reborn(w: World, saved: bool): World {
    if saved then Restart(w) else World(w.disk, Loaded(w.disk))
  }

  /** When the engine can take a step: one job is handled at a time, and after a crash signal
      only in-flight jobs are still settled or requeued before the restart. */
  predicate Enabled(n: Node, e: Event) {
    match e
    case Pop(i) => !n.crashed && n.popped.None? && i < |n.w.mem.queue|
    case Launch => !n.crashed && n.popped.Some?
    case PutBack(row, _) => n.popped.Some? && row.uid == n.popped.value.uid
    case Finish(r, _) => !n.crashed && n.popped.Some? && !r.Succeed? && ForJob(r, n.popped.value.uid)
    case Reap(u, r, _) => n.popped.None? && u in n.flying && !r.Skip? && ForJob(r, u)
    case Requeue(u) => n.popped.None? && u in n.flying
    case Reject(row, _, _, _) => n.popped.None? && row.uid !in n.w.mem.QueueUids() && row.uid !in n.flying
    case FailQueued(batch, _, _) => !n.crashed && n.popped.None? && BatchUids(batch) <= n.w.mem.QueueUids()
    case SkipQueued(row, _) => !n.crashed && n.popped.None? && row in n.w.mem.queue
    case Foreign(_, _) => true
    case Trace(op) => op.OpAppendAttempt? || op.OpUpdateAttempt?
    case Restarted(_) => true
    case Torn(u, r, _, _, _) =>
      ForJob(r, u) && (if IsPopped(n, u) then !r.Succeed? else n.popped.None? && u in n.flying && !r.Skip?)
  }

  predicate IsPopped(n: Node, u: Uid) { n.popped.Some? && n.popped.value.uid == u }

  function RowInHand(n: Node, u: Uid): Row
    requires IsPopped(n, u) || u in n.flying
  {
    if IsPopped(n, u) then n.popped.value else n.flying[u]
  }

  /** An exception strikes between the commit and what it should do to memory: the disk has moved,
      memory has not, except that the job may be put back on the way out. */
  function TornWorld(n: Node, p: Policy, u: Uid, r: Result, f: Faults, requeued: bool): World
    requires IsPopped(n, u) || u in n.flying
  {
    var row := RowInHand(n, u);
    World(Settle(n.w, p, row, r, f).0.disk, if requeued then n.w.mem.Unregister(u).Spawn([row], true) else n.w.mem)
  }

  /** A job that memory neither queues nor runs fails: a spawned job that was rejected, which another
      process may have queued meanwhile. If it is neither archived nor on disk, memory alone has it;
      the crash signal then ends the run. */
  function Rejected(n: Node, p: Policy, row: Row, meta: Meta, f: Faults, saved: bool): Node {
    var (w, exit) := Settle(n.w, p, row, Fail(meta), f);
    if exit == CrashSignal && row.uid !in UidSet(n.w.disk.queue) then
      Node(Reborn(w, saved), {}, None, map[], false, n.skipped)
    else n.(w := w, foreign := n.foreign - {row.uid}, crashed := n.crashed || exit == CrashSignal)
  }

  function Next(n: Node, p: Policy, e: Event): Node
    requires Enabled(n, e)
  {
    match e
    case Pop(i) =>
      n.(w := Popped(n.w, i), popped := Some(n.w.mem.queue[i]))
    case Launch =>
      var row := n.popped.value;
      n.(w := n.w.(mem := n.w.mem.Register(row.uid)), popped := None, flying := n.flying[row.uid := row])
    case PutBack(row, front) =>
      n.(w := n.w.(mem := n.w.mem.Spawn([row], front)), popped := None)
    case Finish(r, f) =>
      var (w, exit) := Settle(n.w, p, n.popped.value, r, f);
      n.(w := w, popped := None, crashed := exit == CrashSignal,
         skipped := if r.Skip? && exit == Returned then n.skipped + {n.popped.value.uid} else n.skipped)
    case Reap(u, r, f) =>
      var (w, exit) := Settle(n.w, p, n.flying[u], r, f);
      n.(w := w, flying := n.flying - {u}, crashed := n.crashed || exit == CrashSignal)
    case Requeue(u) =>
      n.(w := n.w.(mem := n.w.mem.Unregister(u).Spawn([n.flying[u]], true)), flying := n.flying - {u})
    case Reject(row, meta, f, saved) => Rejected(n, p, row, meta, f, saved)
    case FailQueued(batch, record, f) =>
      var (w, exit) := FailBatch(n.w, p, record, batch, f);
      n.(w := w, crashed := exit == CrashSignal)
    case SkipQueued(row, f) =>
      var (w, exit) := ApplySkip(n.w, row.uid, Some(row), f);
      n.(w := w, crashed := exit == CrashSignal,
         skipped := if exit == Returned then n.skipped + {row.uid} else n.skipped)
    case Foreign(rows, front) =>
      n.(w := n.w.(disk := n.w.disk.Enqueue(rows, front).0),
         foreign := n.foreign + (UidSet(rows) - UidSet(n.w.disk.queue)))
    case Trace(op) => n.(w := n.w.(disk := Apply(n.w.disk, op).0))
    case Restarted(saved) =>
      Node(Reborn(n.w, saved), {}, None, map[], false, n.skipped)
    case Torn(u, r, f, requeued, saved) =>
      var exit := Settle(n.w, p, RowInHand(n, u), r, f).1;
      Node(Reborn(TornWorld(n, p, u, r, f, requeued), saved), {}, None, map[], false,
           if r.Skip? && exit == Returned then n.skipped + {u} else n.skipped)
  }

  /** The invariant of every reachable node. */
  ghost predicate Sound(n: Node) {
    && Mirrors(n.w, n.foreign, n.Limbo())
    && n.flying.Keys == n.w.mem.inFlight && (forall u :: u in n.flying ==> n.flying[u].uid == u)
    && (n.popped.Some? ==> n.popped.value.uid !in n.w.mem.QueueUids() && n.popped.value.uid !in n.flying)
    && (n.crashed || DistinctUids(n.w.mem.queue))
  }

  lemma PopIsSound(n: Node, p: Policy, i: nat)
    requires Sound(n) && Enabled(n, Pop(i))
    ensures Sound(Next(n, p, Pop(i)))
  {
    PopSettles(n.w, n.foreign, i);
  }

  lemma LimboMayFly(w: World, foreign: set<Uid>, u: Uid)
    requires Mirrors(w, foreign, {}) && (u in w.mem.inFlight || u in w.mem.QueueUids())
    ensures Mirrors(w, foreign, {u})
  {
  }

  lemma QueuedIsNotFlying(w: World, foreign: set<Uid>, limbo: set<Uid>, u: Uid)
    requires Mirrors(w, foreign, limbo) && u in w.mem.inFlight
    ensures u !in w.mem.QueueUids()
  {
  }

  /** Settling a job, popped or in flight, ends mirrored, with the job out of flight. */
  lemma SettleMirrors(w: World, p: Policy, row: Row, r: Result, f: Faults, foreign: set<Uid>)
    requires Settling(w, foreign, row.uid) && ForJob(r, row.uid)
    ensures Mirrors(Settle(w, p, row, r, f).0, foreign, {})
    ensures Settle(w, p, row, r, f).0.mem.inFlight == w.mem.inFlight - {row.uid}
    ensures DistinctUids(w.mem.queue) ==> DistinctUids(Settle(w, p, row, r, f).0.mem.queue)
  {
    match r {
      case Succeed(_) => SuccessSettles(w, p, row, r, f, foreign);
      case Fail(_) => FailureSettles(w, p, row, r, f, foreign);
      case Retry(_, _) => RetrySettles(w, p, row, r, f, foreign);
      case Skip => SkipSettles(w, p, row, r, f, foreign);
    }
  }

  lemma SuccessSettles(w: World, p: Policy, row: Row, r: Result, f: Faults, foreign: set<Uid>)
    requires Settling(w, foreign, row.uid) && ForJob(r, row.uid) && r.Succeed?
    ensures Mirrors(Settle(w, p, row, r, f).0, foreign, {})
    ensures Settle(w, p, row, r, f).0.mem.inFlight == w.mem.inFlight - {row.uid}
    ensures DistinctUids(w.mem.queue) ==> DistinctUids(Settle(w, p, row, r, f).0.mem.queue)
  {
    SuccessMirrors(w, p, r.c, row, f, foreign);
  }

  lemma FailureSettles(w: World, p: Policy, row: Row, r: Result, f: Faults, foreign: set<Uid>)
    requires Settling(w, foreign, row.uid) && ForJob(r, row.uid) && r.Fail?
    ensures Mirrors(Settle(w, p, row, r, f).0, foreign, {})
    ensures Settle(w, p, row, r, f).0.mem.inFlight == w.mem.inFlight - {row.uid}
    ensures DistinctUids(w.mem.queue) ==> DistinctUids(Settle(w, p, row, r, f).0.mem.queue)
  {
    if f.commit {
      StrikeMirrors(w, p, row.uid, row, f.strike, foreign);
    } else {
      FailureMirrors(w, p, row.uid, r.meta, row, foreign);
    }
  }

  lemma RetrySettles(w: World, p: Policy, row: Row, r: Result, f: Faults, foreign: set<Uid>)
    requires Settling(w, foreign, row.uid) && ForJob(r, row.uid) && r.Retry?
    ensures Mirrors(Settle(w, p, row, r, f).0, foreign, {})
    ensures Settle(w, p, row, r, f).0.mem.inFlight == w.mem.inFlight - {row.uid}
    ensures DistinctUids(w.mem.queue) ==> DistinctUids(Settle(w, p, row, r, f).0.mem.queue)
  {
    RetryMirrors(w, p, row.uid, row, r.row, r.front, f, foreign);
  }

  lemma SkipSettles(w: World, p: Policy, row: Row, r: Result, f: Faults, foreign: set<Uid>)
    requires Settling(w, foreign, row.uid) && ForJob(r, row.uid) && r.Skip?
    ensures Mirrors(Settle(w, p, row, r, f).0, foreign, {})
    ensures Settle(w, p, row, r, f).0.mem.inFlight == w.mem.inFlight - {row.uid}
    ensures DistinctUids(w.mem.queue) ==> DistinctUids(Settle(w, p, row, r, f).0.mem.queue)
  {
    SkipMirrors(w, row.uid, Some(row), f, foreign);
    if DistinctUids(w.mem.queue) {
      SkipDuplicates(w, row.uid, Some(row), f);
    }
  }

  lemma FinishIsSound(n: Node, p: Policy, r: Result, f: Faults)
    requires Sound(n) && Enabled(n, Finish(r, f))
    ensures Sound(Next(n, p, Finish(r, f)))
  {
    SettleMirrors(n.w, p, n.popped.value, r, f, n.foreign);
    assert n.w.mem.inFlight - {n.popped.value.uid} == n.w.mem.inFlight;
  }

  lemma ReapIsSound(n: Node, p: Policy, u: Uid, r: Result, f: Faults)
    requires Sound(n) && Enabled(n, Reap(u, r, f))
    ensures Sound(Next(n, p, Reap(u, r, f)))
  {
    LimboMayFly(n.w, n.foreign, u);
    QueuedIsNotFlying(n.w, n.foreign, {}, u);
    SettleMirrors(n.w, p, n.flying[u], r, f, n.foreign);
  }

  lemma RequeueIsSound(n: Node, p: Policy, u: Uid)
    requires Sound(n) && Enabled(n, Requeue(u))
    ensures Sound(Next(n, p, Requeue(u)))
  {
    LimboMayFly(n.w, n.foreign, u);
    QueuedIsNotFlying(n.w, n.foreign, {}, u);
    PutBackMirrors(n.w, u, n.flying[u], true, n.foreign);
    PutRow(n.w.mem.queue, n.flying[u]);
  }

  /** Failing a job that memory neither queues nor runs ends mirrored, unless it is neither archived
      nor on disk. */
  lemma RejectMirrors(w: World, p: Policy, row: Row, meta: Meta, f: Faults, foreign: set<Uid>)
    requires Mirrors(w, foreign, {}) && row.uid !in w.mem.QueueUids() && row.uid !in w.mem.inFlight
    ensures var (after, exit) := Settle(w, p, row, Fail(meta), f);
      && (Mirrors(after, foreign - {row.uid}, {}) <==> exit != CrashSignal || row.uid in UidSet(w.disk.queue))
      && after.mem.inFlight == w.mem.inFlight
      && (exit == CrashSignal ==> after.disk == w.disk)
      && (DistinctUids(w.mem.queue) ==> DistinctUids(after.mem.queue))
  {
    assert w.mem.inFlight - {row.uid} == w.mem.inFlight;
    if row.uid in UidSet(w.disk.queue) {
      SettleMirrors(w, p, row, Fail(meta), f, foreign - {row.uid});
    } else {
      assert foreign - {row.uid} == foreign;
      UnqueuedFails(w, p, row, meta, f, foreign);
    }
  }

  lemma UnqueuedFails(w: World, p: Policy, row: Row, meta: Meta, f: Faults, foreign: set<Uid>)
    requires Unqueued(w, foreign, row.uid)
    ensures var (after, exit) := Settle(w, p, row, Fail(meta), f);
      && (Mirrors(after, foreign, {}) <==> exit != CrashSignal)
      && (DistinctUids(w.mem.queue) ==> DistinctUids(after.mem.queue))
  {
    if f.commit {
      UnqueuedStrike(w, p, row.uid, row, f.strike, foreign);
      PutRow(w.mem.queue, Struck(row));
    } else {
      UnqueuedArchives(w, row.uid, p.normalize(meta), row.payload, p.normalize(p.normalize(meta)), foreign);
    }
  }

  lemma RejectIsSound(n: Node, p: Policy, row: Row, meta: Meta, f: Faults, saved: bool)
    requires Sound(n) && Enabled(n, Reject(row, meta, f, saved))
    ensures Sound(Rejected(n, p, row, meta, f, saved))
  {
    RejectMirrors(n.w, p, row, meta, f, n.foreign);
    var (w, exit) := Settle(n.w, p, row, Fail(meta), f);
    if exit == CrashSignal && row.uid !in UidSet(n.w.disk.queue) {
      RebornMirrors(w, saved);
      FreshIsSound(Reborn(w, saved), n.skipped);
    }
  }

  /** The rejected job is archived, unless the failure can be committed neither way: then the disk
      keeps it if it had it, and otherwise the next run has it exactly if the queue was saved. */
  lemma RejectedIsKept(n: Node, p: Policy, row: Row, meta: Meta, f: Faults, saved: bool)
    requires Sound(n) && Enabled(n, Reject(row, meta, f, saved))
    ensures var m := Rejected(n, p, row, meta, f, saved);
      var exit := Settle(n.w, p, row, Fail(meta), f).1;
      && (exit != CrashSignal ==> row.uid in TerminalOf(m.w.disk) && row.uid !in m.w.mem.QueueUids())
      && (exit == CrashSignal ==>
            (row.uid in m.w.mem.QueueUids() <==> saved || row.uid in UidSet(n.w.disk.queue)))
  {
    RejectMirrors(n.w, p, row, meta, f, n.foreign);
    var (w, exit) := Settle(n.w, p, row, Fail(meta), f);
    if exit == CrashSignal {
      PutRow(n.w.mem.queue, Struck(row));
      if row.uid !in UidSet(n.w.disk.queue) {
        RebornQueues(w, saved, row.uid);
      }
    }
  }

  lemma PutBackIsSound(n: Node, p: Policy, row: Row, front: bool)
    requires Sound(n) && Enabled(n, PutBack(row, front))
    ensures Sound(Next(n, p, PutBack(row, front)))
  {
    PutBackMirrors(n.w, row.uid, row, front, n.foreign);
    PutRow(n.w.mem.queue, row);
    assert n.w.mem.Unregister(row.uid) == n.w.mem;
  }

  /** A job that comes back into memory has its row at the asked end, or at the head when an abort put it
      back; the disk is as it was. */
  lemma ReturnsMean(n: Node, p: Policy, e: Event)
    requires Enabled(n, e) && (e.PutBack? || e.Requeue?)
    ensures e.PutBack? && e.row.uid !in n.w.mem.inFlight ==>
      Memory.BackInMemory(n.w, e.row.uid, e.row, e.front, Next(n, p, e).w)
    ensures e.Requeue? ==> Memory.BackInMemory(n.w, e.u, n.flying[e.u], true, Next(n, p, e).w)
  {
    if e.PutBack? {
      Memory.BackMeans(n.w, e.row.uid, e.row, e.front);
      if e.row.uid !in n.w.mem.inFlight {
        assert n.w.mem.Unregister(e.row.uid) == n.w.mem;
      }
    } else {
      Memory.BackMeans(n.w, e.u, n.flying[e.u], true);
    }
  }

  lemma FailQueuedIsSound(n: Node, p: Policy, batch: seq<(Uid, Meta)>, record: Meta -> Meta, f: Faults)
    requires Sound(n) && Enabled(n, FailQueued(batch, record, f))
    ensures Sound(Next(n, p, FailQueued(batch, record, f)))
  {
    BatchMirrors(n.w, p, record, batch, f, n.foreign);
    BatchKeepsFlights(n.w, p, record, batch, f);
  }

  lemma SkipQueuedIsSound(n: Node, p: Policy, row: Row, f: Faults)
    requires Sound(n) && Enabled(n, SkipQueued(row, f))
    ensures Sound(Next(n, p, SkipQueued(row, f)))
  {
    LimboMayFly(n.w, n.foreign, row.uid);
    SkipMirrors(n.w, row.uid, Some(row), f, n.foreign);
    SkipDuplicates(n.w, row.uid, Some(row), f);
    assert row.uid in n.w.mem.QueueUids() && row.uid !in n.w.mem.inFlight;
    assert n.w.mem.inFlight - {row.uid} == n.w.mem.inFlight;
  }

  /** What another process enqueues is foreign until the next load. */
  lemma ForeignMirrors(w: World, foreign: set<Uid>, limbo: set<Uid>, rows: seq<Row>, front: bool)
    requires Mirrors(w, foreign, limbo)
    ensures Mirrors(World(w.disk.Enqueue(rows, front).0, w.mem), foreign + (UidSet(rows) - UidSet(w.disk.queue)), limbo)
  {
    ApplyKeepsWellFormed(w.disk, OpEnqueue(rows, front));
    EnqueueUids(w.disk, rows, front);
    EnqueueKeepsRecords(w.disk, rows, front);
    var disk, more := UidSet(w.disk.queue), UidSet(rows);
    ForeignJoins(disk, more, w.mem.QueueUids(), w.mem.inFlight, foreign, limbo);
  }

  lemma EnqueueKeepsRecords(d: Disk, rows: seq<Row>, front: bool)
    ensures var e := d.Enqueue(rows, front).0;
      e.successes == d.successes && e.failed == d.failed && e.cursors == d.cursors
  {
  }

  lemma ForeignJoins(disk: set<Uid>, more: set<Uid>, queued: set<Uid>, inFlight: set<Uid>, foreign: set<Uid>,
                     limbo: set<Uid>)
    requires SameQueue(disk, queued, inFlight, foreign, limbo)
    ensures SameQueue(disk + more, queued, inFlight, foreign + (more - disk), limbo)
  {
  }

  lemma ForeignIsSound(n: Node, p: Policy, rows: seq<Row>, front: bool)
    requires Sound(n)
    ensures Sound(Next(n, p, Foreign(rows, front)))
  {
    var w := World(n.w.disk.Enqueue(rows, front).0, n.w.mem);
    var foreign := n.foreign + (UidSet(rows) - UidSet(n.w.disk.queue));
    ForeignMirrors(n.w, n.foreign, n.Limbo(), rows, front);
    NewDiskIsSound(n, w, foreign);
    assert Next(n, p, Foreign(rows, front)) == n.(w := w, foreign := foreign);
  }

  lemma NewDiskIsSound(n: Node, w: World, foreign: set<Uid>)
    requires Sound(n) && w.mem == n.w.mem && Mirrors(w, foreign, n.Limbo())
    ensures Sound(n.(w := w, foreign := foreign))
  {
  }

  /** A good disk is enough for the next run to start mirrored. */
  lemma RebornMirrors(w: World, saved: bool)
    requires w.disk.WellFormed() && w.disk.successes.Keys !! w.disk.failed.Keys
    ensures var v := Reborn(w, saved);
      Mirrors(v, {}, {}) && v.mem.inFlight == {} && DistinctUids(v.mem.queue)
    ensures UidSet(Reborn(w, saved).disk.queue) == UidSet(w.disk.queue) + if saved then UidSet(w.mem.queue) else {}
  {
    if saved {
      RestartLoads(w);
    } else {
      LoadMirrors(w.disk);
    }
  }

  /** A freshly loaded engine is sound. */
  lemma FreshIsSound(w: World, skipped: set<Uid>)
    requires Mirrors(w, {}, {}) && w.mem.inFlight == {} && DistinctUids(w.mem.queue)
    ensures Sound(Node(w, {}, None, map[], false, skipped))
  {
  }

  lemma RestartIsSound(n: Node, p: Policy, saved: bool)
    requires Sound(n)
    ensures Sound(Next(n, p, Restarted(saved)))
  {
    RebornMirrors(n.w, saved);
    FreshIsSound(Reborn(n.w, saved), n.skipped);
  }

  /** The job in hand can be settled. */
  lemma InHandSettles(n: Node, u: Uid)
    requires Sound(n) && (IsPopped(n, u) || (n.popped.None? && u in n.flying))
    ensures Settling(n.w, n.foreign, u) && RowInHand(n, u).uid == u
  {
    if !IsPopped(n, u) {
      LimboMayFly(n.w, n.foreign, u);
      QueuedIsNotFlying(n.w, n.foreign, {}, u);
    }
  }

  lemma TornIsSound(n: Node, p: Policy, u: Uid, r: Result, f: Faults, requeued: bool, saved: bool)
    requires Sound(n) && Enabled(n, Torn(u, r, f, requeued, saved))
    ensures Sound(Next(n, p, Torn(u, r, f, requeued, saved)))
  {
    InHandSettles(n, u);
    SettleMirrors(n.w, p, RowInHand(n, u), r, f, n.foreign);
    var w := TornWorld(n, p, u, r, f, requeued);
    RebornMirrors(w, saved);
    FreshIsSound(Reborn(w, saved), Next(n, p, Torn(u, r, f, requeued, saved)).skipped);
  }

  /** What a torn settlement costs: the job is queued again in the next run if and only if it was
      put back and saved, or its settlement left it queued; so even a finished job may run again. */
  lemma TornRunsAgain(n: Node, p: Policy, u: Uid, r: Result, f: Faults, requeued: bool, saved: bool)
    requires Sound(n) && Enabled(n, Torn(u, r, f, requeued, saved))
    ensures var after := Reborn(TornWorld(n, p, u, r, f, requeued), saved);
      && after == Next(n, p, Torn(u, r, f, requeued, saved)).w
      && (u in after.mem.QueueUids() <==>
          (requeued && saved) || u in UidSet(Settle(n.w, p, RowInHand(n, u), r, f).0.disk.queue))
      && TerminalOf(after.disk) == TerminalOf(Settle(n.w, p, RowInHand(n, u), r, f).0.disk)
  {
    InHandSettles(n, u);
    SettleMirrors(n.w, p, RowInHand(n, u), r, f, n.foreign);
    var w := TornWorld(n, p, u, r, f, requeued);
    RebornQueues(w, saved, u);
    PutRow(n.w.mem.queue, RowInHand(n, u));
    assert u in w.mem.QueueUids() <==> requeued;
  }

  lemma RebornQueues(w: World, saved: bool, u: Uid)
    requires w.disk.WellFormed() && w.disk.successes.Keys !! w.disk.failed.Keys
    ensures u in Reborn(w, saved).mem.QueueUids() <==> u in UidSet(w.disk.queue) || (saved && u in w.mem.QueueUids())
    ensures TerminalOf(Reborn(w, saved).disk) == TerminalOf(w.disk)
  {
    RebornMirrors(w, saved);
  }

  lemma TraceIsSound(n: Node, p: Policy, op: Op)
    requires Sound(n) && Enabled(n, Trace(op))
    ensures Sound(Next(n, p, Trace(op)))
  {
    TraceMirrors(n.w, op, n.foreign, n.Limbo());
    NewDiskIsSound(n, World(Apply(n.w.disk, op).0, n.w.mem), n.foreign);
    assert n.(foreign := n.foreign) == n;
  }

  lemma TraceMirrors(w: World, op: Op, foreign: set<Uid>, limbo: set<Uid>)
    requires Mirrors(w, foreign, limbo) && (op.OpAppendAttempt? || op.OpUpdateAttempt?)
    ensures Mirrors(World(Apply(w.disk, op).0, w.mem), foreign, limbo)
  {
    ApplyKeepsWellFormed(w.disk, op);
  }

  lemma LaunchIsSound(n: Node, p: Policy)
    requires Sound(n) && Enabled(n, Launch)
    ensures Sound(Next(n, p, Launch))
  {
  }

  lemma StepIsSound(n: Node, p: Policy, e: Event)
    requires Sound(n) && Enabled(n, e)
    ensures Sound(Next(n, p, e))
  {
    match e {
      case Pop(i) => PopIsSound(n, p, i);
      case Launch => LaunchIsSound(n, p);
      case PutBack(row, front) => PutBackIsSound(n, p, row, front);
      case Finish(r, f) => FinishIsSound(n, p, r, f);
      case Reap(u, r, f) => ReapIsSound(n, p, u, r, f);
      case Requeue(u) => RequeueIsSound(n, p, u);
      case Reject(row, meta, f, saved) => RejectIsSound(n, p, row, meta, f, saved);
      case FailQueued(batch, record, f) => FailQueuedIsSound(n, p, batch, record, f);
      case SkipQueued(row, f) => SkipQueuedIsSound(n, p, row, f);
      case Foreign(rows, front) => ForeignIsSound(n, p, rows, front);
      case Trace(op) => TraceIsSound(n, p, op);
      case Restarted(saved) => RestartIsSound(n, p, saved);
      case Torn(u, r, f, requeued, saved) => TornIsSound(n, p, u, r, f, requeued, saved);
    }
  }

  /** The node after a run; a step that is not enabled does nothing. */
  function Run(n: Node, p: Policy, events: seq<Event>): Node {
    if events == [] then n
    else
      var before, e := Run(n, p, events[..|events| - 1]), events[|events| - 1];
      if Enabled(before, e) then Next(before, p, e) else before
  }

  /** Memory mirrors the disk at every point of every run, crashes and restarts included. */
  lemma {:induction false} EveryRunMirrors(n: Node, p: Policy, events: seq<Event>)
    requires Sound(n)
    ensures Sound(Run(n, p, events))
  {
    if events != [] {
      var before, e := Run(n, p, events[..|events| - 1]), events[|events| - 1];
      EveryRunMirrors(n, p, events[..|events| - 1]);
      if Enabled(before, e) {
        StepIsSound(before, p, e);
      }
    }
  }

  // ---- no job is lost ----

  function TerminalOf(d: Disk): set<Uid> { d.successes.Keys + d.failed.Keys }

  /** Whatever was queued on disk is still queued, archived, or in `gone`; archived stays archived. */
  ghost predicate LosesOnly(before: Disk, after: Disk, gone: set<Uid>) {
    && UidSet(before.queue) <= UidSet(after.queue) + TerminalOf(after) + gone
    && TerminalOf(before) <= TerminalOf(after)
  }

  lemma LosesTransitive(a: Disk, b: Disk, c: Disk, gone: set<Uid>, more: set<Uid>)
    requires LosesOnly(a, b, gone) && LosesOnly(b, c, more) && gone <= more
    ensures LosesOnly(a, c, more)
  {
    forall u | u in UidSet(a.queue) ensures u in UidSet(c.queue) + TerminalOf(c) + more {
      assert u in UidSet(b.queue) + TerminalOf(b) + gone;
    }
  }

  lemma FailureLosesNothing(d: Disk, u: Uid, m: Meta, payload: Option<Payload>)
    ensures LosesOnly(d, d.CommitFailure(u, m, payload), {})
  {
    WithoutUids(d.queue, {u});
  }

  lemma SettleLosesOnly(w: World, p: Policy, row: Row, r: Result, f: Faults)
    requires w.disk.WellFormed() && row.uid in UidSet(w.disk.queue) && ForJob(r, row.uid)
    ensures var (after, exit) := Settle(w, p, row, r, f);
      LosesOnly(w.disk, after.disk, if r.Skip? && exit == Returned then {row.uid} else {})
  {
    match r {
      case Succeed(c) => SuccessLosesNothing(w, p, row, c, f);
      case Fail(meta) =>
        StrikeLosesNothing(w, p, row, f.strike);
        FailureLosesNothing(w.disk, row.uid, p.normalize(meta), row.payload);
      case Retry(again, front) =>
        StrikeLosesNothing(w, p, row, f.strike);
        RequeueOnDisk(w.disk, row.uid, again, front);
      case Skip => WithoutUids(w.disk.queue, {row.uid});
    }
  }

  lemma StrikeLosesNothing(w: World, p: Policy, row: Row, fault: bool)
    ensures LosesOnly(w.disk, CommitStrike(w, p, row.uid, row, fault).0.disk, {})
  {
    FailureLosesNothing(w.disk, row.uid, p.strikeMeta, Struck(row).payload);
  }

  lemma SuccessLosesNothing(w: World, p: Policy, row: Row, c: SuccessCommit, f: Faults)
    requires c.uid == row.uid
    ensures LosesOnly(w.disk, ApplySuccess(w, p, c, row, f).0.disk, {})
  {
    StrikeLosesNothing(w, p, row, f.strike);
    WithoutUids(w.disk.queue, {c.uid});
    UidSetAppend(c.spawned, Without(w.disk.queue, {c.uid}));
  }

  lemma {:induction false} SweepLosesNothing(s: Sweep, p: Policy, uids: seq<Uid>, f: Faults)
    ensures LosesOnly(s.w.disk, SweepAll(s, p, uids, f).w.disk, {})
  {
    if uids != [] {
      var front, u := uids[..|uids| - 1], uids[|uids| - 1];
      SweepLosesNothing(s, p, front, f);
      var t := SweepAll(s, p, front, f);
      var row := RowOf(t.queue, u);
      FailureLosesNothing(t.w.disk, u, p.strikeMeta, if row.Some? then row.value.payload else None);
      LosesTransitive(s.w.disk, t.w.disk, SweepOne(t, p, u, f).w.disk, {}, {});
    }
  }

  lemma BatchLosesNothing(w: World, p: Policy, record: Meta -> Meta, batch: seq<(Uid, Meta)>, f: Faults)
    ensures LosesOnly(w.disk, FailBatch(w, p, record, batch, f).0.disk, {})
  {
    if f.batch {
      SweepLosesNothing(Sweep(w, w.mem.queue, false), p, UidsOf(batch), f);
    } else {
      WithoutUids(w.disk.queue, BatchUids(batch));
      FailAllKeys(w.disk.failed, batch);
    }
  }

  lemma TornLosesOnly(n: Node, p: Policy, u: Uid, r: Result, f: Faults, requeued: bool, saved: bool)
    requires Sound(n) && Enabled(n, Torn(u, r, f, requeued, saved))
    ensures var m := Next(n, p, Torn(u, r, f, requeued, saved));
      LosesOnly(n.w.disk, m.w.disk, m.skipped) && n.skipped <= m.skipped
  {
    InHandSettles(n, u);
    SettleMirrors(n.w, p, RowInHand(n, u), r, f, n.foreign);
    SettleLosesOnly(n.w, p, RowInHand(n, u), r, f);
    RebornMirrors(TornWorld(n, p, u, r, f, requeued), saved);
  }

  lemma RejectLosesNothing(n: Node, p: Policy, row: Row, meta: Meta, f: Faults, saved: bool)
    requires Sound(n) && Enabled(n, Reject(row, meta, f, saved))
    ensures LosesOnly(n.w.disk, Rejected(n, p, row, meta, f, saved).w.disk, {})
  {
    StrikeLosesNothing(n.w, p, row, f.strike);
    FailureLosesNothing(n.w.disk, row.uid, p.normalize(meta), row.payload);
    var w := Settle(n.w, p, row, Fail(meta), f).0;
    if w.disk == n.w.disk {
      RebornMirrors(w, saved);
    }
  }

  lemma FinishLosesOnly(n: Node, p: Policy, e: Event)
    requires Sound(n) && Enabled(n, e) && (e.Finish? || e.Reap?)
    ensures LosesOnly(n.w.disk, Next(n, p, e).w.disk, Next(n, p, e).skipped) && n.skipped <= Next(n, p, e).skipped
  {
    SettleLosesOnly(n.w, p, if e.Finish? then n.popped.value else n.flying[e.u], e.r, e.f);
  }

  lemma QueuedLosesOnly(n: Node, p: Policy, e: Event)
    requires Sound(n) && Enabled(n, e) && (e.FailQueued? || e.SkipQueued? || e.Foreign?)
    ensures LosesOnly(n.w.disk, Next(n, p, e).w.disk, Next(n, p, e).skipped) && n.skipped <= Next(n, p, e).skipped
  {
    match e {
      case FailQueued(batch, record, f) => BatchLosesNothing(n.w, p, record, batch, f);
      case SkipQueued(row, f) => WithoutUids(n.w.disk.queue, {row.uid});
      case Foreign(rows, front) => EnqueueUids(n.w.disk, rows, front);
    }
  }

  /** These leave queue and records on disk alone. */
  lemma QuietLosesNothing(n: Node, p: Policy, e: Event)
    requires Enabled(n, e) && (e.Pop? || e.Launch? || e.PutBack? || e.Requeue? || e.Trace?)
    ensures LosesOnly(n.w.disk, Next(n, p, e).w.disk, {}) && n.skipped == Next(n, p, e).skipped
  {
  }

  lemma StepLosesOnly(n: Node, p: Policy, e: Event)
    requires Sound(n) && Enabled(n, e)
    ensures LosesOnly(n.w.disk, Next(n, p, e).w.disk, Next(n, p, e).skipped) && n.skipped <= Next(n, p, e).skipped
  {
    if e.Finish? || e.Reap? {
      FinishLosesOnly(n, p, e);
    } else if e.FailQueued? || e.SkipQueued? || e.Foreign? {
      QueuedLosesOnly(n, p, e);
    } else if e.Restarted? {
      RebornMirrors(n.w, e.saved);
    } else if e.Reject? {
      RejectLosesNothing(n, p, e.row, e.meta, e.f, e.saved);
    } else if e.Torn? {
      TornLosesOnly(n, p, e.u, e.r, e.f, e.requeued, e.saved);
    } else {
      QuietLosesNothing(n, p, e);
    }
  }

  /** Over every run, a job queued on disk is at the end still queued, archived as a success or a
      failure, or was skipped; nothing else makes it go away. */
  lemma {:induction false} NoJobIsLost(n: Node, p: Policy, events: seq<Event>)
    requires Sound(n)
    ensures LosesOnly(n.w.disk, Run(n, p, events).w.disk, Run(n, p, events).skipped) &&
      n.skipped <= Run(n, p, events).skipped
  {
    if events != [] {
      var before, e := Run(n, p, events[..|events| - 1]), events[|events| - 1];
      NoJobIsLost(n, p, events[..|events| - 1]);
      EveryRunMirrors(n, p, events[..|events| - 1]);
      if Enabled(before, e) {
        StepLosesOnly(before, p, e);
        LosesTransitive(n.w.disk, before.w.disk, Next(before, p, e).w.disk, before.skipped, Next(before, p, e).skipped);
      }
    }
  }
}
