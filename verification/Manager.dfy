/** The resource manager and its leases as the objects the engine mutates; each method is proved
    against the functions the run theorems are about. */
module Manager {
  import opened Jobs
  import opened Scheduler
  import opened Resources
  import opened Leases

  class ResourceManager {
    var pool: Pool
    const defaults: map<TaskType, Bag>

    constructor (p: Pool, d: map<TaskType, Bag>)
      ensures pool == p && defaults == d
    {
      pool, defaults := p, d;
    }

    function DefaultsOf(t: TaskType): Bag {
      if t in defaults then defaults[t] else []
    }

    function EffectiveResources(t: TaskType, declared: Bag): Bag {
      if DefaultsOf(t) == [] then declared else Merge(DefaultsOf(t), declared)
    }

    /** A declared amount counts; a default counts for what is not declared. */
    lemma EffectiveMeans(t: TaskType, declared: Bag, name: string)
      ensures Lookup(EffectiveResources(t, declared), name) ==
        if Lookup(declared, name).Some? then Lookup(declared, name)
        else if t in defaults then Lookup(defaults[t], name) else None
    {
      MergeMeans(DefaultsOf(t), declared, name);
    }

    /** Writing the effective resources into the job, as ingestion does, changes them no more. */
    lemma NormalisingKeepsEffective(t: TaskType, declared: Bag)
      requires IsDict(DefaultsOf(t))
      ensures EffectiveResources(t, EffectiveResources(t, declared)) == EffectiveResources(t, declared)
    {
      MergeIdempotent(DefaultsOf(t), declared);
    }

    method EvaluateJob(t: TaskType, declared: Bag, now: real) returns (e: Evaluation)
      ensures e == Evaluate(pool, EffectiveResources(t, declared), now, 0.0)
    {
      var eff := EffectiveResources(t, declared);
      var minWait := 0.0;
      for i := 0 to |eff|
        invariant Evaluate(pool, eff, now, 0.0) == Evaluate(pool, eff[i..], now, minWait)
      {
        var (name, amount) := eff[i];
        assert eff[i..][1..] == eff[i + 1..];
        if name !in pool {
          return UnknownResource;
        }
        match pool[name].CanAcquire(amount, now) {
          case Never => return ImpossibleAmount;
          case Later(wait) => minWait := Max(minWait, wait);
          case Yes =>
        }
      }
      e := if minWait > 0.0 then Busy(minWait) else Available;
    }

    /** Take capacities, check rate limits; on any refusal give back what was taken. */
    method ReserveJob(t: TaskType, declared: Bag, now: real) returns (r: Reservation, lease: ResourceLease?)
      modifies this
      ensures (pool, r) == Reserve(old(pool), EffectiveResources(t, declared), now)
      ensures r.Granted? <==> lease != null
      ensures lease != null ==>
        fresh(lease) && lease.manager == this && lease.View() == Lease(r.acquired, r.rates, Reserved)
    {
      var eff := EffectiveResources(t, declared);
      var acquired: Bag, rates: Bag := [], [];
      lease := null;
      for i := 0 to |eff|
        invariant Take(old(pool), eff, now, [], []) == Take(pool, eff[i..], now, acquired, rates)
      {
        var (name, amount) := eff[i];
        assert eff[i..][1..] == eff[i + 1..];
        if name !in pool {
          ReleaseAllOf(acquired);
          return Refused(NotRegistered), null;
        }
        if pool[name].RateLimit? {
          if pool[name].CanAcquire(amount, now) != Yes {
            ReleaseAllOf(acquired);
            return Refused(RateLimited), null;
          }
          rates := rates + [(name, amount)];
        } else {
          var taken := pool[name].Acquire(amount, now);
          if taken.None? {
            ReleaseAllOf(acquired);
            return Refused(BadAmount), null;
          }
          pool := pool[name := taken.value];
          acquired := acquired + [(name, amount)];
        }
      }
      r := Granted(acquired, rates);
      lease := new ResourceLease(this, acquired, rates);
    }

    method ReleaseAllOf(acquired: Bag)
      modifies this
      ensures pool == ReleaseAll(old(pool), acquired)
    {
      for i := 0 to |acquired|
        invariant ReleaseAll(old(pool), acquired) == ReleaseAll(pool, acquired[i..])
      {
        var (name, amount) := acquired[i];
        assert acquired[i..][1..] == acquired[i + 1..];
        if name in pool {
          var released := pool[name].Release(amount);
          if released.Some? {
            pool := pool[name := released.value];
          }
        }
      }
    }

    method SuspendResource(name: string, seconds: real, now: real) returns (ok: bool)
      modifies this
      ensures ok == (name in old(pool)) && pool == SuspendOne(old(pool), Signal(name, seconds, now))
    {
      if name !in pool {
        return false;
      }
      pool := pool[name := pool[name].Suspend(seconds, now)];
      ok := true;
    }
  }

  class ResourceLease {
    const manager: ResourceManager
    const acquired: Bag
    const rates: Bag
    var status: LeaseStatus

    constructor (m: ResourceManager, a: Bag, r: Bag)
      ensures manager == m && View() == Lease(a, r, Reserved)
    {
      manager, acquired, rates, status := m, a, r, Reserved;
    }

    ghost function View(): Lease
      reads this
    {
      Lease(acquired, rates, status)
    }

    /** Move the rate limits on, once; a refused amount leaves the lease reserved. */
    method ClaimIt(now: real) returns (ok: bool)
      modifies this`status, manager
      ensures old(status) != Reserved ==> ok && manager.pool == old(manager.pool) && status == old(status)
      ensures old(status) == Reserved ==>
        (manager.pool, ok) == Advance(old(manager.pool), rates, now) && status == if ok then Claimed else Reserved
    {
      if status != Reserved {
        return true;
      }
      for i := 0 to |rates|
        invariant Advance(old(manager.pool), rates, now) == Advance(manager.pool, rates[i..], now)
        invariant status == Reserved
      {
        var (name, amount) := rates[i];
        assert rates[i..][1..] == rates[i + 1..];
        if name in manager.pool {
          var r := manager.pool[name].Acquire(amount, now);
          if r.None? {
            return false;
          }
          manager.pool := manager.pool[name := r.value];
        }
      }
      status := Claimed;
      ok := true;
    }

    /** Give everything back, once. */
    method ReleaseIt()
      modifies this`status, manager
      ensures status == Released
      ensures manager.pool == if old(status) == Released then old(manager.pool)
                              else ReleaseAll(old(manager.pool), acquired)
    {
      if status == Released {
        return;
      }
      manager.ReleaseAllOf(acquired);
      status := Released;
    }
  }

  /** A dispatched job: its lease, and the copy of the acquired list kept beside it. */
  class InFlightJob {
    const uid: Uid
    const lease: ResourceLease
    var acquired: Bag

    constructor (u: Uid, l: ResourceLease)
      ensures uid == u && lease == l && acquired == l.acquired
    {
      uid, lease, acquired := u, l, l.acquired;
    }

    /** The list is emptied and the lease released; a second call finds both done already. */
    method ReleaseResources()
      modifies this, lease`status, lease.manager
      ensures acquired == [] && lease.status == Released
      ensures lease.manager.pool ==
        if old(lease.status) == Released then old(lease.manager.pool)
        else ReleaseAll(old(lease.manager.pool), lease.acquired)
    {
      lease.ReleaseIt();
      acquired := [];
    }

    /** The abort path releases every entry up front and again when it settles it: the second
        time changes nothing. */
    method ReleaseOnAbort()
      modifies this, lease`status, lease.manager
      ensures acquired == [] && lease.status == Released
      ensures lease.manager.pool ==
        if old(lease.status) == Released then old(lease.manager.pool)
        else ReleaseAll(old(lease.manager.pool), lease.acquired)
    {
      ReleaseResources();
      ReleaseResources();
    }
  }
}
