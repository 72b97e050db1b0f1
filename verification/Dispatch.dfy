/** Where a popped job can end up, and what each end means for both queues. */
module Fates {
  import opened Jobs
  import opened State
  import opened Disk
  import opened Mirror
  import opened Store
  import opened Scheduler
  import opened Resources
  import opened Leases
  import Contract
  import Memory

  /** How the launch goes once the resources are reserved. An interrupt strikes before the worker is
      started, or after the claim and then before or after the job is registered. */
  datatype Launch = Starts | InvalidPayload | Raises | Interrupted | InterruptedLate(tracked: bool)
  {
    predicate Started() { Starts? || InterruptedLate? }
  }

  /** What the checks before the launch find, in the order they are made. */
  datatype Checks = Checks(depFailed: bool, due: bool, traced: bool, known: bool, orphaned: bool)
  {
    /** Only a first activation asks its trigger. */
    predicate Clear(row: Row) {
      !depFailed && (row.attemptNo > 1 || due) && traced && known && !orphaned
    }

    predicate Undue(row: Row) { !depFailed && row.attemptNo <= 1 && !due }

    /** Which check turns the job away decides how: for good, because something it depends on failed, it
        is not due, or nobody knows its task; back at the head with the exception, because its attempt
        could not be opened; back where it is wanted, because an orphan still holds it. */
    ghost predicate Decide(row: Row, d: Dispatched) {
      && (d.Settled? <==> depFailed || (row.attemptNo <= 1 && !due) || (traced && !known))
      && (d == Deferred(true) <==> !depFailed && (row.attemptNo > 1 || due) && !traced)
      && (d == Deferred(false) <==> !depFailed && (row.attemptNo > 1 || due) && traced && known && orphaned)
    }
  }

  /** `raised`: the exception goes on to the run loop once the row is back in memory. An abandoned
      job is in flight for the abort to find; its exception goes on, too. */
  datatype Dispatched = Launched | Abandoned | Deferred(raised: bool) | Settled(exit: Exit)
  {
    predicate Flies() { Launched? || Abandoned? }
  }

  datatype Trial = Ready | CutShort | Refuses(why: Refusal) | NotStarted | NotClaimed

  /** The reservation is granted and its claim goes through. */
  ghost predicate Goes(pool: Pool, eff: Bag, now: real, at: real) {
    var (after, r) := Reserve(pool, eff, now);
    r.Granted? && Advance(after, r.rates, at).1
  }

  /** The job is archived, and then exactly what depends on it. If its failure cannot be committed, it
      has one more strike. */
  ghost predicate RejectedAs(store: StateStore, w: World, row: Row, meta: Meta, f: Faults, after: World, exit: Exit)
    reads store
  {
    if f.commit then Memory.Strikes(w, store.policy, row.uid, row, f.strike, after, exit)
    else
      && row.uid in after.mem.failed && row.uid !in after.mem.QueueUids()
      && exists cascaded, archived :: ArchivedFirst(store, w, row, meta, archived) &&
           store.Cascaded(archived, row.uid, cascaded, f, after, exit)
  }

  ghost predicate ArchivedFirst(store: StateStore, w: World, row: Row, meta: Meta, archived: World)
    reads store
  {
    var onDisk := store.policy.normalize(meta);
    Memory.ArchivedAs(w, row.uid, onDisk, row.payload, store.policy.normalize(onDisk), archived)
  }

  /** What has become of the popped job and of both queues. A job put back with an exception is at the
      head of memory, any other at the asked end. */
  ghost predicate Meant(store: StateStore, popped: World, row: Row, undue: bool, front: bool, meta: Meta, f: Faults,
                        d: Dispatched, after: World)
    reads store
  {
    && (d.Flies() <==> row.uid in after.mem.inFlight)
    && (d.Flies() ==> after == World(popped.disk, popped.mem.Register(row.uid)))
    && (d.Deferred? ==> Memory.BackInMemory(popped, row.uid, row, d.raised || front, after))
    && (d.Settled? && undue ==> Memory.SkippedAs(popped, row, f, after, d.exit))
    && (d.Settled? && !undue ==> RejectedAs(store, popped, row, meta, f, after, d.exit))
  }

  /** The same in terms of the exits of the store. */
  ghost predicate Placed(store: StateStore, popped: World, row: Row, undue: bool, front: bool, meta: Meta, f: Faults,
                         d: Dispatched, after: World)
    reads store
  {
    && (d.Flies() <==> row.uid in after.mem.inFlight)
    && (d.Flies() ==> after == World(popped.disk, popped.mem.Register(row.uid)))
    && (d.Deferred? ==> after == World(popped.disk, popped.mem.Unregister(row.uid).Spawn([row], d.raised || front)))
    && (d.Settled? && undue ==> (after, d.exit) == SkipMarked(popped, row, f))
    && (d.Settled? && !undue ==> TurnedDown(store, popped, row, meta, f, after, d.exit))
  }

  /** A terminal skip, remembered for the rest of the run once it is committed. */
  function SkipMarked(w: World, row: Row, f: Faults): (World, Exit) {
    var (after, exit) := Mirror.ApplySkip(w, row.uid, Some(row), f);
    (if exit == Returned then World(after.disk, after.mem.MarkTriggerSkipped(row.uid)) else after, exit)
  }

  /** The job has failed for good, or is back because its commit failed. */
  ghost predicate TurnedDown(store: StateStore, w: World, row: Row, meta: Meta, f: Faults, after: World, exit: Exit)
    reads store
  {
    if f.commit then (after, exit) == CommitStrike(w, store.policy, row.uid, row, f.strike)
    else
      && row.uid in after.mem.failed && row.uid !in after.mem.QueueUids()
      && exists cascaded ::
           store.Cascaded(ArchiveFailure(w, store.policy, row.uid, meta, row), row.uid, cascaded, f, after, exit)
  }

  lemma PlacedMeans(store: StateStore, popped: World, row: Row, undue: bool, front: bool, meta: Meta, f: Faults,
                    d: Dispatched, after: World)
    requires Placed(store, popped, row, undue, front, meta, f, d, after)
    ensures Meant(store, popped, row, undue, front, meta, f, d, after)
  {
    if d.Deferred? {
      Memory.BackMeans(popped, row.uid, row, d.raised || front);
    } else if d.Settled? && undue {
      Memory.SkipMarks(popped, row, f);
    } else if d.Settled? {
      TurnedDownMeans(store, popped, row, meta, f, after, d.exit);
    }
  }

  lemma TurnedDownMeans(store: StateStore, w: World, row: Row, meta: Meta, f: Faults, after: World, exit: Exit)
    requires TurnedDown(store, w, row, meta, f, after, exit)
    ensures RejectedAs(store, w, row, meta, f, after, exit)
  {
    Memory.StrikeMeans(w, store.policy, row.uid, row, f.strike);
    if !f.commit {
      Memory.FailureMeans(w, store.policy, row.uid, meta, row);
      assert ArchivedFirst(store, w, row, meta, ArchiveFailure(w, store.policy, row.uid, meta, row));
    }
  }

  /** A failed dispatch is final at exactly the threshold; before it the exception goes on. */
  ghost predicate FailedDispatch(store: StateStore, failures: nat, d: Dispatched)
    reads store
  {
    if failures + 1 >= store.policy.threshold then d.Settled? else d == Deferred(true)
  }

  /** How a launch ends: by the refusal, by what kept the worker from starting, by the claim, or by an
      interrupt after it. */
  ghost predicate Ends(store: StateStore, pool: Pool, eff: Bag, now: real, at: real, how: Launch, failures: nat,
                       d: Dispatched)
    reads store
  {
    var r := Reserve(pool, eff, now).1;
    if r == Refused(RateLimited) then d == Deferred(false)
    else if r.Refused? then FailedDispatch(store, failures, d)
    else match how
      case InvalidPayload => d.Settled?
      case Interrupted => d == Deferred(true)
      case Raises => FailedDispatch(store, failures, d)
      case Starts => if Goes(pool, eff, now, at) then d.Launched? else FailedDispatch(store, failures, d)
      case InterruptedLate(tracked) =>
        if !Goes(pool, eff, now, at) then FailedDispatch(store, failures, d)
        else if tracked then d.Abandoned? else d == Deferred(true)
  }

  /** The same, from the attempt that was made. */
  ghost predicate EndsAs(store: StateStore, a: Trial, how: Launch, failures: nat, d: Dispatched)
    reads store
  {
    match a
    case Ready => d.Launched?
    case CutShort => how.InterruptedLate? && if how.tracked then d.Abandoned? else d == Deferred(true)
    case Refuses(why) => if why.RateLimited? then d == Deferred(false) else FailedDispatch(store, failures, d)
    case NotStarted =>
      if how.InvalidPayload? then d.Settled?
      else if how.Interrupted? then d == Deferred(true) else FailedDispatch(store, failures, d)
    case NotClaimed => FailedDispatch(store, failures, d)
  }

  /** How far the attempt got. */
  ghost predicate Tried(pool: Pool, eff: Bag, now: real, at: real, how: Launch, a: Trial) {
    && (a.Ready? <==> Goes(pool, eff, now, at) && how.Starts?)
    && (a.CutShort? <==> Goes(pool, eff, now, at) && how.InterruptedLate?)
    && (Reserve(pool, eff, now).1.Refused? <==> a.Refuses?)
    && (a.Refuses? ==> a.why == Reserve(pool, eff, now).1.why)
    && (a.NotClaimed? <==> Reserve(pool, eff, now).1.Granted? && how.Started() && !Goes(pool, eff, now, at))
  }

  lemma EndsFollow(store: StateStore, pool: Pool, eff: Bag, now: real, at: real, how: Launch, failures: nat, a: Trial,
                   d: Dispatched)
    requires Tried(pool, eff, now, at, how, a) && EndsAs(store, a, how, failures, d)
    ensures Ends(store, pool, eff, now, at, how, failures, d)
  {
    assert a.NotStarted? ==> !how.Started();
  }
}

/** Dispatching the job the scan chose: pop, check, reserve, launch, claim, register. Whatever
    goes wrong on the way, a job that is not launched holds no resource, and memory mirrors the
    disk. */
module Dispatch {
  import opened Jobs
  import opened State
  import opened Disk
  import opened Mirror
  import opened Store
  import opened Scheduler
  import opened Resources
  import opened Leases
  import opened Spacing
  import opened Manager
  import opened Fates
  import Completion

  // ---- one launch ----

  /** The pool after one launch; a late interrupt gives back what the launch took. */
  ghost function PoolFor(pool: Pool, eff: Bag, now: real, at: real, how: Launch): Pool {
    var after := AfterLaunch(pool, eff, now, at, how.Started());
    if how.InterruptedLate? && Goes(pool, eff, now, at) then ReleaseAll(after, Reserve(pool, eff, now).1.acquired)
    else after
  }

  /** The lease such a launch leaves. */
  ghost function LeaseFor(pool: Pool, eff: Bag, now: real, d: Dispatched): Lease
    requires Reserve(pool, eff, now).1.Granted?
  {
    var r := Reserve(pool, eff, now).1;
    Lease(r.acquired, r.rates, if d.Launched? then Claimed else Released)
  }

  // ---- resources ----

  lemma SameUseChains(a: Pool, b: Pool, c: Pool)
    requires SameUse(a, b) && SameUse(b, c)
    ensures SameUse(a, c)
  {
    forall name | name in a ensures SameUseOf(a[name], c[name]) {
      assert SameUseOf(a[name], b[name]) && SameUseOf(b[name], c[name]);
    }
  }

  lemma SameUseStaysNonNegative(a: Pool, b: Pool)
    requires SameUse(a, b) && NonNegativeUse(a)
    ensures NonNegativeUse(b)
  {
    forall name | name in b && b[name].Capacity? ensures b[name].used >= 0.0 {
      assert SameUseOf(a[name], b[name]);
    }
  }

  lemma SameUseFits(a: Pool, b: Pool)
    requires SameUse(a, b) && WithinCapacity(a)
    ensures WithinCapacity(b)
  {
    forall name | name in b && b[name].Capacity? ensures 0.0 <= b[name].used <= b[name].max {
      assert SameUseOf(a[name], b[name]);
    }
  }

  /** Releasing looks at use only: a claim made before it makes no difference. */
  lemma {:induction false} ReleaseSeesUse(a: Pool, b: Pool, bag: Bag)
    requires SameUse(a, b)
    ensures SameUse(ReleaseAll(a, bag), ReleaseAll(b, bag))
  {
    if bag != [] {
      var (name, amount) := bag[0];
      assert name in a ==> SameUseOf(a[name], b[name]);
      var a' := if name in a && a[name].Release(amount).Some? then a[name := a[name].Release(amount).value] else a;
      var b' := if name in b && b[name].Release(amount).Some? then b[name := b[name].Release(amount).value] else b;
      ReleaseSeesUse(a', b', bag[1..]);
    }
  }

  /** A granted reservation that is given back, whether it was never claimed or its claim failed
      part-way: every use is as it was. */
  lemma FailedClaimRestores(pool: Pool, eff: Bag, now: real, at: real)
    requires NonNegativeUse(pool) && Reserve(pool, eff, now).1.Granted?
    ensures var (after, r) := Reserve(pool, eff, now);
      && ReleaseAll(after, r.acquired) == pool
      && SameUse(pool, ReleaseAll(Advance(after, r.rates, at).0, r.acquired))
  {
    var (after, r) := Reserve(pool, eff, now);
    GrantAddsAcquired(pool, eff, now);
    ReleaseIsExact(after, r.acquired);
    GrantedRates(pool, eff, now, [], []);
    AdvanceKeepsUse(after, r.rates, at);
    ReleaseSeesUse(after, Advance(after, r.rates, at).0, r.acquired);
  }

  /** A launch after a scan that found the job's resources available overcommits nothing. */
  lemma LaunchFits(pool: Pool, eff: Bag, scan: real, signals: seq<Signal>, now: real, at: real)
    requires IsDict(eff) && WithinCapacity(pool) && Evaluate(pool, eff, scan, 0.0) == Available
    requires Reserve(SuspendAll(pool, signals), eff, now).1.Granted?
    ensures var (after, r) := Reserve(SuspendAll(pool, signals), eff, now);
      WithinCapacity(Advance(after, r.rates, at).0)
  {
    var p := SuspendAll(pool, signals);
    SignalsKeepUse(pool, signals);
    SameUseFits(pool, p);
    forall name | name in p && p[name].Capacity? ensures p[name].used + AmountOf(eff, name) <= p[name].max {
      assert SameUseOf(pool[name], p[name]);
      DispatchFits(pool, eff, scan, signals, name);
    }
    GrantFitsIff(p, eff, now);
    var (after, r) := Reserve(p, eff, now);
    GrantedRates(p, eff, now, [], []);
    GrantAddsAcquired(p, eff, now);
    AdvanceKeepsUse(after, r.rates, at);
    SameUseFits(after, Advance(after, r.rates, at).0);
  }

  // ---- the queue ----

  /** A sweep drops rows and adds failures, never the other way round. */
  lemma {:induction false} SweepArchives(s: Sweep, p: Policy, uids: seq<Uid>, f: Faults)
    ensures UidSet(SweepAll(s, p, uids, f).queue) <= UidSet(s.queue)
    ensures s.w.mem.failed.Keys <= SweepAll(s, p, uids, f).w.mem.failed.Keys
  {
    if uids != [] {
      var front, u := uids[..|uids| - 1], uids[|uids| - 1];
      SweepArchives(s, p, front, f);
      var before := SweepAll(s, p, front, f);
      BumpUids(before.queue, u);
      WithoutUids(Bump(before.queue, u), {u});
    }
  }

  lemma BatchArchives(w: World, p: Policy, record: Meta -> Meta, batch: seq<(Uid, Meta)>, f: Faults)
    ensures UidSet(FailBatch(w, p, record, batch, f).0.mem.queue) <= UidSet(w.mem.queue)
    ensures w.mem.failed.Keys <= FailBatch(w, p, record, batch, f).0.mem.failed.Keys
  {
    if !f.batch {
      var m := w.mem.ReplaceQueue(Without(w.mem.queue, BatchUids(batch)));
      WithoutUids(w.mem.queue, BatchUids(batch));
      RecordAllKeys(m, record, batch);
    } else {
      SweepArchives(Sweep(w, w.mem.queue, false), p, UidsOf(batch), f);
    }
  }

  /** Once its failure is archived, a job is out of the queue and out of flight, whatever happens
      to the cascade after it. */
  lemma ArchivedStaysOut(store: StateStore, w: World, foreign: set<Uid>, u: Uid, cascaded: seq<Uid>, f: Faults,
                         after: World, exit: Exit)
    requires Mirrors(w, foreign, {}) && store.Cascaded(w, u, cascaded, f, after, exit)
    ensures after.mem.inFlight == w.mem.inFlight
    ensures after.mem.QueueUids() <= w.mem.QueueUids() && w.mem.failed.Keys <= after.mem.failed.Keys
  {
    Completion.CascadeKeeps(store, w, foreign, u, cascaded, f, after, exit);
    if cascaded != [] {
      BatchArchives(w, store.policy, store.policy.normalize, CascadeBatch(store.policy, cascaded), f);
    }
  }

  // ---- dispatching ----

  class DispatchMachine {
    const store: StateStore
    const manager: ResourceManager
    var leases: map<Uid, ResourceLease>

    constructor (s: StateStore, m: ResourceManager)
      ensures store == s && manager == m && leases == map[]
    {
      store, manager, leases := s, m, map[];
    }

    /** What one launch from `pool` makes of pool and leases. */
    twostate predicate Leaves(row: Row, pool: Pool, new eff: Bag, now: real, at: real, how: Launch, failures: nat,
                              d: Dispatched)
      reads this, store, manager, leases.Values
    {
      && Ends(store, pool, eff, now, at, how, failures, d)
      && manager.pool == PoolFor(pool, eff, now, at, how)
      && (d.Flies() ==>
          row.uid in leases && leases == old(leases)[row.uid := leases[row.uid]] && fresh(leases[row.uid]))
      && (d.Flies() ==> leases[row.uid].View() == LeaseFor(pool, eff, now, d))
    }

    /** Dispatch the job at index `i`. It is launched if and only if every check passed, the
        reservation was granted, the worker started, the claim succeeded, and no interrupt came. */
    method DispatchJob(i: nat, checks: Checks, declared: Bag, signals: seq<Signal>, now: real, at: real, how: Launch,
                       failures: nat, front: bool, meta: Meta, f: Faults, ghost foreign: set<Uid>)
      returns (d: Dispatched)
      requires store.Valid() && Mirrors(store.Now(), foreign, {}) && DistinctUids(store.state.queue)
      requires i < |store.state.queue| && store.state.queue[i].Job? && NonNegativeUse(manager.pool)
      modifies this`leases, manager, store.backend, store.state
      ensures store.Valid() && Mirrors(store.Now(), foreign, {})
      ensures var row := old(store.state.queue)[i];
        var undue := !checks.depFailed && row.attemptNo <= 1 && !checks.due;
        Meant(store, Popped(old(store.Now()), i), row, undue, front, meta, f, d, store.Now())
      ensures var row, pool := old(store.state.queue)[i], SuspendAll(old(manager.pool), signals);
        var eff := manager.EffectiveResources(row.taskType, declared);
        if !checks.depFailed && (row.attemptNo > 1 || checks.due) && checks.traced && checks.known && !checks.orphaned
        then Leaves(row, pool, eff, now, at, how, failures, d)
        else checks.Decide(row, d) && !d.Flies() && manager.pool == old(manager.pool)
      ensures !d.Flies() ==> leases == old(leases)
      ensures !d.Launched? ==> SameUse(old(manager.pool), manager.pool)
    {
      PopSettles(store.Now(), foreign, i);
      var row := store.state.PopJob(i);
      ghost var popped := store.Now();
      assert popped == Popped(old(store.Now()), i);
      d := DispatchPopped(row, checks, declared, signals, now, at, how, failures, front, meta, f, foreign);
      PlacedMeans(store, popped, row, checks.Undue(row), front, meta, f, d, store.Now());
    }

    method DispatchPopped(row: Row, checks: Checks, declared: Bag, signals: seq<Signal>, now: real, at: real,
                          how: Launch, failures: nat, front: bool, meta: Meta, f: Faults, ghost foreign: set<Uid>)
      returns (d: Dispatched)
      requires store.Valid() && Settling(store.Now(), foreign, row.uid) && row.uid !in store.state.inFlight
      requires row.Job? && NonNegativeUse(manager.pool)
      modifies this`leases, manager, store.backend, store.state
      ensures store.Valid() && Mirrors(store.Now(), foreign, {})
      ensures Placed(store, old(store.Now()), row, checks.Undue(row), front, meta, f, d, store.Now())
      ensures var pool := SuspendAll(old(manager.pool), signals);
        var eff := manager.EffectiveResources(row.taskType, declared);
        if !checks.depFailed && (row.attemptNo > 1 || checks.due) && checks.traced && checks.known && !checks.orphaned
        then Leaves(row, pool, eff, now, at, how, failures, d)
        else checks.Decide(row, d) && !d.Flies() && manager.pool == old(manager.pool)
      ensures !d.Flies() ==> leases == old(leases)
      ensures !d.Launched? ==> SameUse(old(manager.pool), manager.pool)
    {
      if checks.Clear(row) {
        d := DrainAndSpawn(row, declared, signals, now, at, how, failures, front, meta, f, foreign);
      } else {
        d := TurnAway(row, checks, front, meta, f, foreign);
        SignalsKeepUse(old(manager.pool), []);
      }
    }

    /** Apply what other workers signalled, then spawn. */
    method DrainAndSpawn(row: Row, declared: Bag, signals: seq<Signal>, now: real, at: real, how: Launch, failures: nat,
                         front: bool, meta: Meta, f: Faults, ghost foreign: set<Uid>)
      returns (d: Dispatched)
      requires store.Valid() && Settling(store.Now(), foreign, row.uid) && row.uid !in store.state.inFlight
      requires row.Job? && NonNegativeUse(manager.pool)
      modifies this`leases, manager, store.backend, store.state
      ensures store.Valid() && Mirrors(store.Now(), foreign, {})
      ensures Placed(store, old(store.Now()), row, false, front, meta, f, d, store.Now())
      ensures var pool := SuspendAll(old(manager.pool), signals);
        var eff := manager.EffectiveResources(row.taskType, declared);
        Leaves(row, pool, eff, now, at, how, failures, d)
      ensures !d.Flies() ==> leases == old(leases)
      ensures !d.Launched? ==> SameUse(old(manager.pool), manager.pool)
    {
      ghost var before := manager.pool;
      SignalsKeepUse(before, signals);
      DrainSignals(signals);
      ghost var drained := manager.pool;
      SameUseStaysNonNegative(before, drained);
      d := SpawnEntry(row, declared, now, at, how, failures, front, meta, f, foreign);
      if !d.Launched? {
        SameUseChains(before, drained, manager.pool);
      }
    }

    /** The first check that fails decides. */
    method TurnAway(row: Row, checks: Checks, front: bool, meta: Meta, f: Faults, ghost foreign: set<Uid>)
      returns (d: Dispatched)
      requires store.Valid() && Settling(store.Now(), foreign, row.uid) && row.uid !in store.state.inFlight
      requires !checks.Clear(row)
      modifies store.backend, store.state
      ensures store.Valid() && Mirrors(store.Now(), foreign, {})
      ensures !d.Flies() && Placed(store, old(store.Now()), row, checks.Undue(row), front, meta, f, d, store.Now())
      ensures checks.Decide(row, d)
    {
      if checks.depFailed {
        d := Reject(row, front, meta, f, foreign);
      } else if row.attemptNo <= 1 && !checks.due {
        d := SkipUndue(row, front, meta, f, foreign);
      } else {
        d := TurnAwayDue(row, checks, front, meta, f, foreign);
      }
    }

    /** The job is due, and nothing it depends on failed. */
    method TurnAwayDue(row: Row, checks: Checks, front: bool, meta: Meta, f: Faults, ghost foreign: set<Uid>)
      returns (d: Dispatched)
      requires store.Valid() && Settling(store.Now(), foreign, row.uid) && row.uid !in store.state.inFlight
      requires !checks.Clear(row) && !checks.depFailed && (row.attemptNo > 1 || checks.due)
      modifies store.backend, store.state
      ensures store.Valid() && Mirrors(store.Now(), foreign, {})
      ensures !d.Flies() && Placed(store, old(store.Now()), row, false, front, meta, f, d, store.Now())
      ensures checks.Decide(row, d)
    {
      if !checks.traced {
        d := Defer(row, true, true, false, front, meta, f, foreign);
      } else if !checks.known {
        d := Reject(row, front, meta, f, foreign);
      } else {
        d := Defer(row, front, false, false, front, meta, f, foreign);
      }
    }

    method DrainSignals(signals: seq<Signal>)
      modifies manager
      ensures manager.pool == SuspendAll(old(manager.pool), signals)
    {
      for i := 0 to |signals|
        invariant manager.pool == SuspendAll(old(manager.pool), signals[..i])
      {
        assert signals[..i + 1][..i] == signals[..i];
        var _ := manager.SuspendResource(signals[i].name, signals[i].seconds, signals[i].now);
      }
      assert signals[..|signals|] == signals;
    }

    /** Reserve, launch, claim, register. */
    method SpawnEntry(row: Row, declared: Bag, now: real, at: real, how: Launch, failures: nat, front: bool, meta: Meta,
                      f: Faults, ghost foreign: set<Uid>)
      returns (d: Dispatched)
      requires store.Valid() && Settling(store.Now(), foreign, row.uid) && row.uid !in store.state.inFlight
      requires row.Job? && NonNegativeUse(manager.pool)
      modifies this`leases, manager, store.backend, store.state
      ensures store.Valid() && Mirrors(store.Now(), foreign, {})
      ensures Placed(store, old(store.Now()), row, false, front, meta, f, d, store.Now())
      ensures var pool, eff := old(manager.pool), manager.EffectiveResources(row.taskType, declared);
        Leaves(row, pool, eff, now, at, how, failures, d)
      ensures !d.Flies() ==> leases == old(leases)
      ensures !d.Launched? ==> SameUse(old(manager.pool), manager.pool)
    {
      var a := TryEntry(row, declared, now, at, how);
      ghost var pool, eff := old(manager.pool), manager.EffectiveResources(row.taskType, declared);
      d := Place(row, a, how, failures, front, meta, f, foreign);
      EndsFollow(store, pool, eff, now, at, how, failures, a, d);
    }

    /** Try to launch, and track the entry with its lease if that went through or was cut short too late. */
    method TryEntry(row: Row, declared: Bag, now: real, at: real, how: Launch) returns (a: Trial)
      requires row.Job? && NonNegativeUse(manager.pool)
      modifies this`leases, manager
      ensures store.Now() == old(store.Now()) && (old(store.Valid()) ==> store.Valid())
      ensures var pool, eff := old(manager.pool), manager.EffectiveResources(row.taskType, declared);
        && Tried(pool, eff, now, at, how, a) && manager.pool == PoolFor(pool, eff, now, at, how)
        && (a.Ready? || (a.CutShort? && how.tracked) ==>
            && row.uid in leases && leases == old(leases)[row.uid := leases[row.uid]] && fresh(leases[row.uid])
            && leases[row.uid].View() == LeaseFor(pool, eff, now, if a.Ready? then Launched else Abandoned))
      ensures !(a.Ready? || (a.CutShort? && how.tracked)) ==> leases == old(leases)
      ensures !a.Ready? ==> SameUse(old(manager.pool), manager.pool)
    {
      var lease;
      a, lease := TryLaunch(row.taskType, declared, now, at, how);
      if a.Ready? || (a.CutShort? && how.tracked) {
        leases := leases[row.uid := lease];
      }
    }

    /** The lease is already tracked, or given back. */
    method Place(row: Row, a: Trial, how: Launch, failures: nat, front: bool, meta: Meta,
                 f: Faults, ghost foreign: set<Uid>)
      returns (d: Dispatched)
      requires store.Valid() && Settling(store.Now(), foreign, row.uid) && row.uid !in store.state.inFlight
      requires (a.NotStarted? ==> !how.Started()) && (a.CutShort? ==> how.InterruptedLate?)
      modifies store.backend, store.state
      ensures store.Valid() && Mirrors(store.Now(), foreign, {})
      ensures Placed(store, old(store.Now()), row, false, front, meta, f, d, store.Now())
      ensures EndsAs(store, a, how, failures, d)
      ensures d.Flies() <==> a.Ready? || (a.CutShort? && how.tracked)
    {
      if a.Ready? || (a.CutShort? && how.tracked) {
        d := Track(row, a.Ready?, front, meta, f, foreign);
      } else {
        d := HandleNoLaunch(row, a, how, failures, front, meta, f, foreign);
      }
    }

    /** Register the job in flight. */
    method Track(row: Row, launched: bool, ghost front: bool, ghost meta: Meta, ghost f: Faults,
                 ghost foreign: set<Uid>)
      returns (d: Dispatched)
      requires store.Valid() && Settling(store.Now(), foreign, row.uid) && row.uid !in store.state.inFlight
      modifies store.state
      ensures store.Valid() && Mirrors(store.Now(), foreign, {})
      ensures Placed(store, old(store.Now()), row, false, front, meta, f, d, store.Now())
      ensures d == if launched then Launched else Abandoned
    {
      store.state.RegisterInFlight(row.uid);
      d := if launched then Launched else Abandoned;
    }

    /** The lease is already released, if there was one. */
    method HandleNoLaunch(row: Row, a: Trial, how: Launch, failures: nat, front: bool, meta: Meta, f: Faults,
                          ghost foreign: set<Uid>)
      returns (d: Dispatched)
      requires store.Valid() && Settling(store.Now(), foreign, row.uid) && row.uid !in store.state.inFlight
      requires !a.Ready? && (a.NotStarted? ==> !how.Started())
      requires a.CutShort? ==> how.InterruptedLate? && !how.tracked
      modifies store.backend, store.state
      ensures store.Valid() && Mirrors(store.Now(), foreign, {})
      ensures !d.Flies() && Placed(store, old(store.Now()), row, false, front, meta, f, d, store.Now())
      ensures EndsAs(store, a, how, failures, d)
    {
      match a {
        case Refuses(why) => d := HandleRefusal(row, why, failures, front, meta, f, foreign);
        case NotStarted => d := HandleNoStart(row, how, failures, front, meta, f, foreign);
        case NotClaimed => d := HandleDispatchFailure(row, failures, front, meta, f, foreign);
        case CutShort => d := Defer(row, true, true, false, front, meta, f, foreign);
      }
    }

    /** Reserve, launch, claim: only a launch that gets through all three uninterrupted keeps its
        lease. */
    method TryLaunch(t: TaskType, declared: Bag, now: real, at: real, how: Launch)
      returns (a: Trial, lease: ResourceLease?)
      requires NonNegativeUse(manager.pool)
      modifies manager
      ensures var pool, eff := old(manager.pool), manager.EffectiveResources(t, declared);
        && Tried(pool, eff, now, at, how, a)
        && (a.Ready? || a.CutShort? ==> lease != null && fresh(lease))
        && (a.Ready? || a.CutShort? ==>
            lease.View() == LeaseFor(pool, eff, now, if a.Ready? then Launched else Abandoned))
        && manager.pool == PoolFor(pool, eff, now, at, how)
      ensures !a.Ready? ==> SameUse(old(manager.pool), manager.pool)
      ensures a.NotStarted? ==> !how.Started()
    {
      ghost var pool := manager.pool;
      ghost var eff := manager.EffectiveResources(t, declared);
      RefusalRestores(pool, eff, now);
      var r;
      r, lease := manager.ReserveJob(t, declared, now);
      if r.Refused? {
        return Refuses(r.why), lease;
      }
      FailedClaimRestores(pool, eff, now, at);
      if !how.Started() {
        lease.ReleaseIt();
        return NotStarted, lease;
      }
      var claimed := lease.ClaimIt(at);
      if !claimed {
        lease.ReleaseIt();
        return NotClaimed, lease;
      }
      if how.InterruptedLate? {
        lease.ReleaseIt();
        return CutShort, lease;
      }
      a := Ready;
    }

    /** A rate limit that closed since the scan costs nothing; any other refusal is a failure. */
    method HandleRefusal(row: Row, why: Refusal, failures: nat, front: bool, meta: Meta, f: Faults,
                         ghost foreign: set<Uid>)
      returns (d: Dispatched)
      requires store.Valid() && Settling(store.Now(), foreign, row.uid) && row.uid !in store.state.inFlight
      modifies store.backend, store.state
      ensures store.Valid() && Mirrors(store.Now(), foreign, {})
      ensures !d.Flies() && Placed(store, old(store.Now()), row, false, front, meta, f, d, store.Now())
      ensures if why.RateLimited? then d == Deferred(false) else FailedDispatch(store, failures, d)
    {
      if why.RateLimited? {
        d := Defer(row, front, false, false, front, meta, f, foreign);
      } else {
        d := HandleDispatchFailure(row, failures, front, meta, f, foreign);
      }
    }

    /** The lease is already released. */
    method HandleNoStart(row: Row, how: Launch, failures: nat, ghost front: bool, meta: Meta, f: Faults,
                         ghost foreign: set<Uid>)
      returns (d: Dispatched)
      requires store.Valid() && Settling(store.Now(), foreign, row.uid) && row.uid !in store.state.inFlight &&
        !how.Started()
      modifies store.backend, store.state
      ensures store.Valid() && Mirrors(store.Now(), foreign, {})
      ensures !d.Flies() && Placed(store, old(store.Now()), row, false, front, meta, f, d, store.Now())
      ensures EndsAs(store, NotStarted, how, failures, d)
    {
      if how.InvalidPayload? {
        d := Reject(row, front, meta, f, foreign);
      } else if how.Interrupted? {
        d := Defer(row, true, true, false, front, meta, f, foreign);
      } else {
        d := HandleDispatchFailure(row, failures, front, meta, f, foreign);
      }
    }

    /** The job is archived at exactly the threshold; below it the exception goes on. */
    method HandleDispatchFailure(row: Row, failures: nat, ghost front: bool, meta: Meta, f: Faults,
                                 ghost foreign: set<Uid>)
      returns (d: Dispatched)
      requires store.Valid() && Settling(store.Now(), foreign, row.uid) && row.uid !in store.state.inFlight
      modifies store.backend, store.state
      ensures store.Valid() && Mirrors(store.Now(), foreign, {})
      ensures !d.Flies() && Placed(store, old(store.Now()), row, false, front, meta, f, d, store.Now())
      ensures if failures + 1 >= store.policy.threshold then d.Settled? else d == Deferred(true)
    {
      if failures + 1 >= store.policy.threshold {
        d := Reject(row, front, meta, f, foreign);
      } else {
        d := Defer(row, true, true, false, front, meta, f, foreign);
      }
    }

    /** Back into memory; the disk still holds the row. */
    method Defer(row: Row, end: bool, raised: bool, ghost undue: bool, ghost front: bool, ghost meta: Meta,
                 ghost f: Faults, ghost foreign: set<Uid>)
      returns (d: Dispatched)
      requires end == (raised || front)
      requires store.Valid() && Settling(store.Now(), foreign, row.uid) && row.uid !in store.state.inFlight
      modifies store.state
      ensures store.Valid() && Mirrors(store.Now(), foreign, {})
      ensures d == Deferred(raised) && Placed(store, old(store.Now()), row, undue, front, meta, f, d, store.Now())
    {
      PutBackMirrors(store.Now(), row.uid, row, end, foreign);
      assert store.Now().mem.Unregister(row.uid) == store.Now().mem;
      store.state.SpawnJobs([row], end);
      d := Deferred(raised);
    }

    /** The trigger says the job is not due: it leaves the queue, and for the rest of the run counts
        as done for what depends on it. */
    method SkipUndue(row: Row, ghost front: bool, ghost meta: Meta, f: Faults, ghost foreign: set<Uid>)
      returns (d: Dispatched)
      requires store.Valid() && Settling(store.Now(), foreign, row.uid) && row.uid !in store.state.inFlight
      modifies store.backend, store.state
      ensures store.Valid() && Mirrors(store.Now(), foreign, {})
      ensures d.Settled? && Placed(store, old(store.Now()), row, true, front, meta, f, d, store.Now())
    {
      WithoutUids(store.state.queue, {row.uid});
      var exit := store.ApplySkip(row.uid, Some(row), f, foreign);
      if exit == Returned {
        store.state.MarkTriggerSkipped(row.uid);
      }
      d := Settled(exit);
    }

    /** The single way to turn a job down for good: fail it, with its cascade. */
    method Reject(row: Row, ghost front: bool, meta: Meta, f: Faults, ghost foreign: set<Uid>)
      returns (d: Dispatched)
      requires store.Valid() && Settling(store.Now(), foreign, row.uid) && row.uid !in store.state.inFlight
      modifies store.backend, store.state
      ensures store.Valid() && Mirrors(store.Now(), foreign, {})
      ensures d.Settled? && Placed(store, old(store.Now()), row, false, front, meta, f, d, store.Now())
    {
      ghost var w := store.Now();
      var exit, cascaded := store.ApplyFailure(row.uid, meta, row, true, f, foreign);
      if !f.commit {
        var archived := ArchiveFailure(w, store.policy, row.uid, meta, row);
        FailureMirrors(w, store.policy, row.uid, meta, row, foreign);
        ArchivedStaysOut(store, archived, foreign, row.uid, cascaded, f, store.Now(), exit);
      }
      d := Settled(exit);
    }
  }
}
