/** Two-phase leases over whole runs: nothing is overcommitted, leaked or given back twice. The
    steps may interleave freely here; that reserving and claiming are one step of the engine is
    used in `Spacing`. */
module Leases {
  import opened Jobs
  import opened Scheduler
  import opened Resources

  datatype LeaseStatus = Reserved | Claimed | Released

  datatype Lease = Lease(acquired: Bag, rates: Bag, status: LeaseStatus)

  datatype System = System(pool: Pool, leases: seq<Lease>)

  /** How much of a resource the unreleased leases hold. */
  function HeldOf(leases: seq<Lease>, name: string): real {
    if leases == [] then 0.0
    else HeldOf(leases[..|leases| - 1], name) + Share(leases[|leases| - 1], name)
  }

  function Share(l: Lease, name: string): real {
    if l.status == Released then 0.0 else AmountOf(l.acquired, name)
  }

  ghost predicate GoodLease(pool: Pool, l: Lease) {
    && NonNegative(l.acquired)
    && forall i :: 0 <= i < |l.rates| ==> l.rates[i].0 in pool && pool[l.rates[i].0].RateLimit?
  }

  /** Used is what the unreleased leases add up to. */
  ghost predicate Conserved(s: System) {
    && (forall i :: 0 <= i < |s.leases| ==> GoodLease(s.pool, s.leases[i]))
    && (forall name :: name in s.pool && s.pool[name].Capacity? ==> s.pool[name].used == HeldOf(s.leases, name))
  }

  /** No capacity is overcommitted. */
  ghost predicate WithinCapacity(pool: Pool) {
    forall name :: name in pool && pool[name].Capacity? ==> 0.0 <= pool[name].used <= pool[name].max
  }

  lemma HeldUpdate(leases: seq<Lease>, i: nat, l: Lease, name: string)
    requires i < |leases|
    ensures HeldOf(leases[i := l], name) == HeldOf(leases, name) - Share(leases[i], name) + Share(l, name)
  {
    var n := |leases| - 1;
    if i < n {
      HeldUpdate(leases[..n], i, l, name);
      assert leases[i := l][..n] == leases[..n][i := l];
    } else {
      assert leases[i := l][..n] == leases[..n];
    }
  }

  lemma HeldCovers(leases: seq<Lease>, i: nat, name: string)
    requires i < |leases| && forall k :: 0 <= k < |leases| ==> NonNegative(leases[k].acquired)
    ensures HeldOf(leases, name) >= Share(leases[i], name) >= 0.0
  {
    var n := |leases| - 1;
    AmountNonNegative(leases[i].acquired, name);
    AmountNonNegative(leases[n].acquired, name);
    if i < n {
      HeldCovers(leases[..n], i, name);
    } else {
      HeldNonNegative(leases[..n], name);
    }
  }

  lemma HeldNonNegative(leases: seq<Lease>, name: string)
    requires forall k :: 0 <= k < |leases| ==> NonNegative(leases[k].acquired)
    ensures HeldOf(leases, name) >= 0.0
  {
    if leases != [] {
      HeldNonNegative(leases[..|leases| - 1], name);
      AmountNonNegative(leases[|leases| - 1].acquired, name);
    }
  }

  // ---- events ----

  datatype Signal = Signal(name: string, seconds: real, now: real)

  function SuspendOne(pool: Pool, sig: Signal): Pool {
    if sig.name in pool then pool[sig.name := pool[sig.name].Suspend(sig.seconds, sig.now)] else pool
  }

  function SuspendAll(pool: Pool, signals: seq<Signal>): Pool {
    if signals == [] then pool else SuspendOne(SuspendAll(pool, signals[..|signals| - 1]), signals[|signals| - 1])
  }

  /** Claiming moves the rate limits on; a refused amount stops it. */
  function Advance(pool: Pool, rates: Bag, now: real): (Pool, bool) {
    if rates == [] then (pool, true)
    else if rates[0].0 !in pool then Advance(pool, rates[1..], now)
    else
      var r := pool[rates[0].0].Acquire(rates[0].1, now);
      if r.None? then (pool, false) else Advance(pool[rates[0].0 := r.value], rates[1..], now)
  }

  /** What dispatching, claiming, settling and suspending do. Between the scan that judges a job
      available and its reservation, pending suspension signals are applied. */
  datatype Event =
    | Dispatch(eff: Bag, scan: real, signals: seq<Signal>, now: real)
    | Claim(i: nat, at: real)
    | Release(i: nat)
    | Suspend(sig: Signal)

  function Step(s: System, e: Event): System {
    match e
    case Dispatch(eff, scan, signals, now) =>
      if Evaluate(s.pool, eff, scan, 0.0) != Available then s
      else
        var (pool, r) := Reserve(SuspendAll(s.pool, signals), eff, now);
        System(pool, if r.Granted? then s.leases + [Lease(r.acquired, r.rates, Reserved)] else s.leases)
    case Claim(i, at) =>
      if i >= |s.leases| || s.leases[i].status != Reserved then s
      else
        var (pool, ok) := Advance(s.pool, s.leases[i].rates, at);
        System(pool, if ok then s.leases[i := s.leases[i].(status := Claimed)] else s.leases)
    case Release(i) =>
      if i >= |s.leases| || s.leases[i].status == Released then s
      else System(ReleaseAll(s.pool, s.leases[i].acquired), s.leases[i := s.leases[i].(status := Released)])
    case Suspend(sig) => s.(pool := SuspendOne(s.pool, sig))
  }

  /** Same resources of the same kinds, capacities and use; only deadlines may differ. */
  ghost predicate SameUse(a: Pool, b: Pool) {
    && a.Keys == b.Keys
    && forall name :: name in a ==> SameUseOf(a[name], b[name])
  }

  predicate SameUseOf(a: Resource, b: Resource) {
    match a
    case Capacity(max, used, _, _) => b.Capacity? && b.max == max && b.used == used
    case RateLimit(interval, _) => b.RateLimit? && b.interval == interval
  }

  lemma SignalsKeepUse(pool: Pool, signals: seq<Signal>)
    ensures SameUse(pool, SuspendAll(pool, signals))
  {
    if signals != [] {
      SignalsKeepUse(pool, signals[..|signals| - 1]);
    }
  }

  /** After the signals, each signalled resource is shut until the deadline of every signal to it, and
      the others are as they were. */
  lemma {:induction false} SignalsShut(pool: Pool, signals: seq<Signal>, amount: real, t: real)
    ensures SuspendAll(pool, signals).Keys == pool.Keys
    ensures forall k :: 0 <= k < |signals| && signals[k].name in pool && t < Deadline(signals[k]) ==>
      SuspendAll(pool, signals)[signals[k].name].CanAcquire(amount, t) != Yes
    ensures forall name :: name in pool && (forall k :: 0 <= k < |signals| ==> signals[k].name != name) ==>
      SuspendAll(pool, signals)[name] == pool[name]
  {
    if signals != [] {
      var front, sig := signals[..|signals| - 1], signals[|signals| - 1];
      SignalsShut(pool, front, amount, t);
      assert forall k :: 0 <= k < |front| ==> front[k] == signals[k];
      if sig.name in pool {
        SuspensionHolds(SuspendAll(pool, front)[sig.name], sig.seconds, sig.now, amount, t);
        StaysShut(SuspendAll(pool, front)[sig.name], sig.seconds, sig.now, amount, t);
      }
    }
  }

  /** The deadline a signal asks for: a day away at most, and none for a non-positive request. */
  function Deadline(sig: Signal): real {
    if sig.seconds <= 0.0 then sig.now else if sig.seconds <= 86400.0 then sig.now + sig.seconds else sig.now + 86400.0
  }

  /** No suspension opens what is shut. */
  lemma StaysShut(r: Resource, seconds: real, now: real, amount: real, t: real)
    ensures r.CanAcquire(amount, t) != Yes ==> r.Suspend(seconds, now).CanAcquire(amount, t) != Yes
  {
  }

  lemma AdvanceKeepsUse(pool: Pool, rates: Bag, now: real)
    requires forall i :: 0 <= i < |rates| ==> rates[i].0 in pool && pool[rates[i].0].RateLimit?
    ensures SameUse(pool, Advance(pool, rates, now).0)
  {
    if rates != [] {
      var r := pool[rates[0].0].Acquire(rates[0].1, now);
      if r.Some? {
        assert forall i :: 0 <= i < |rates[1..]| ==> rates[1..][i] == rates[i + 1];
        AdvanceKeepsUse(pool[rates[0].0 := r.value], rates[1..], now);
      }
    }
  }

  lemma SameUseKeeps(s: System, pool: Pool)
    requires Conserved(s) && WithinCapacity(s.pool) && SameUse(s.pool, pool)
    ensures Conserved(System(pool, s.leases)) && WithinCapacity(pool)
  {
    forall i | 0 <= i < |s.leases| ensures GoodLease(pool, s.leases[i]) {
      assert GoodLease(s.pool, s.leases[i]);
    }
  }

  /** Reservation by itself does not look at free capacity: it overcommits exactly when the
      amounts do not fit. */
  lemma GrantFitsIff(pool: Pool, eff: Bag, now: real)
    requires IsDict(eff) && WithinCapacity(pool) && Reserve(pool, eff, now).1.Granted?
    ensures WithinCapacity(Reserve(pool, eff, now).0) <==>
      forall name :: name in pool && pool[name].Capacity? ==> pool[name].used + AmountOf(eff, name) <= pool[name].max
  {
    var (after, r) := Reserve(pool, eff, now);
    GrantAddsAcquired(pool, eff, now);
    forall name | name in pool && pool[name].Capacity?
      ensures after[name].used == pool[name].used + AmountOf(eff, name) && AmountOf(eff, name) >= 0.0 &&
        after[name].max == pool[name].max
    {
      GrantTakesAll(pool, eff, now, [], [], name);
      TakeMeans(pool, eff, now, [], []);
      assert Take(pool, eff, now, [], []).1 == r.acquired && r.acquired[0..] == r.acquired;
      AmountNonNegative(r.acquired, name);
    }
  }

  lemma {:induction false} GrantTakesAll(pool: Pool, eff: Bag, now: real, acquired: Bag, rates: Bag, name: string)
    requires name in pool && pool[name].Capacity? && Take(pool, eff, now, acquired, rates).2.Granted?
    ensures acquired <= Take(pool, eff, now, acquired, rates).1
    ensures AmountOf(Take(pool, eff, now, acquired, rates).1[|acquired|..], name) == AmountOf(eff, name)
    decreases eff
  {
    if eff == [] {
      assert acquired[|acquired|..] == [];
    } else {
      var (n, amount) := eff[0];
      if pool[n].RateLimit? {
        GrantTakesAll(pool, eff[1..], now, acquired, rates + [eff[0]], name);
      } else {
        var pool' := pool[n := pool[n].Acquire(amount, now).value];
        GrantTakesAll(pool', eff[1..], now, acquired + [eff[0]], rates, name);
        var all := Take(pool', eff[1..], now, acquired + [eff[0]], rates).1;
        assert (acquired + [eff[0]])[|acquired|] == all[|acquired|] == eff[0];
        assert acquired == all[..|acquired|];
        assert all[|acquired|..][1..] == all[|acquired| + 1..];
      }
    }
  }

  lemma {:induction false} GrantedRates(pool: Pool, eff: Bag, now: real, acquired: Bag, rates: Bag)
    requires Take(pool, eff, now, acquired, rates).2.Granted?
    requires forall i :: 0 <= i < |rates| ==> rates[i].0 in pool && pool[rates[i].0].RateLimit?
    ensures forall i :: 0 <= i < |Take(pool, eff, now, acquired, rates).2.rates| ==>
      var n := Take(pool, eff, now, acquired, rates).2.rates[i].0; n in pool && pool[n].RateLimit?
    decreases eff
  {
    if eff != [] {
      var (n, amount) := eff[0];
      if pool[n].RateLimit? {
        GrantedRates(pool, eff[1..], now, acquired, rates + [eff[0]]);
      } else {
        GrantedRates(pool[n := pool[n].Acquire(amount, now).value], eff[1..], now, acquired + [eff[0]], rates);
      }
    }
  }

  /** Scan, then reserve: the scan's answer still holds for capacities when signals came between. */
  lemma DispatchFits(pool: Pool, eff: Bag, scan: real, signals: seq<Signal>, name: string)
    requires IsDict(eff) && WithinCapacity(pool) && Evaluate(pool, eff, scan, 0.0) == Available
    requires name in pool && pool[name].Capacity?
    ensures name in SuspendAll(pool, signals) && SuspendAll(pool, signals)[name].Capacity?
    ensures SuspendAll(pool, signals)[name].used + AmountOf(eff, name) <= SuspendAll(pool, signals)[name].max
  {
    SignalsKeepUse(pool, signals);
    assert SameUseOf(pool[name], SuspendAll(pool, signals)[name]);
    EvaluateMeans(pool, eff, scan, 0.0);
    AmountInDict(eff, name);
    if Lookup(eff, name).Some? {
      var i := LookupIndex(eff, name);
      assert eff[i].0 in pool && pool[eff[i].0].CanAcquire(eff[i].1, scan) == Yes;
    }
  }

  lemma LookupIndex(b: Bag, name: string) returns (i: nat)
    requires Lookup(b, name).Some?
    ensures i < |b| && b[i] == (name, Lookup(b, name).value)
  {
    if b[0].0 == name {
      i := 0;
    } else {
      var k := LookupIndex(b[1..], name);
      i := k + 1;
    }
  }

  lemma DispatchKeeps(s: System, eff: Bag, scan: real, signals: seq<Signal>, now: real)
    requires Conserved(s) && WithinCapacity(s.pool) && IsDict(eff)
    ensures var t := Step(s, Dispatch(eff, scan, signals, now)); Conserved(t) && WithinCapacity(t.pool)
  {
    var pool := SuspendAll(s.pool, signals);
    var (after, r) := Reserve(pool, eff, now);
    SignalsKeepUse(s.pool, signals);
    SameUseKeeps(s, pool);
    RefusalRestores(pool, eff, now);
    if Evaluate(s.pool, eff, scan, 0.0) == Available && r.Granted? {
      GrantAddsAcquired(pool, eff, now);
      GrantFitsIff(pool, eff, now);
      forall name | name in pool && pool[name].Capacity?
        ensures pool[name].used + AmountOf(eff, name) <= pool[name].max
      {
        assert SameUseOf(s.pool[name], pool[name]);
        DispatchFits(s.pool, eff, scan, signals, name);
      }
      GrantedRates(pool, eff, now, [], []);
      GrantConserves(System(pool, s.leases), after, Lease(r.acquired, r.rates, Reserved));
    }
  }

  lemma GrantConserves(s: System, after: Pool, l: Lease)
    requires Conserved(s) && Shifted(s.pool, after, l.acquired, 1.0) && GoodLease(s.pool, l) && l.status != Released
    ensures Conserved(System(after, s.leases + [l]))
  {
    var more := s.leases + [l];
    assert more[..|more| - 1] == s.leases;
    forall i | 0 <= i < |more| ensures GoodLease(after, more[i]) {
      assert GoodLease(s.pool, more[i]);
    }
  }

  lemma ReleaseKeeps(s: System, i: nat)
    requires Conserved(s) && WithinCapacity(s.pool)
    ensures Conserved(Step(s, Release(i))) && WithinCapacity(Step(s, Release(i)).pool)
  {
    if i < |s.leases| && s.leases[i].status != Released {
      var l := s.leases[i];
      forall name | name in s.pool && s.pool[name].Capacity?
        ensures s.pool[name].used >= AmountOf(l.acquired, name) >= 0.0
      {
        HeldCovers(s.leases, i, name);
      }
      ReleaseIsExact(s.pool, l.acquired);
      var t := Step(s, Release(i));
      forall name | name in t.pool && t.pool[name].Capacity? ensures t.pool[name].used == HeldOf(t.leases, name) {
        HeldUpdate(s.leases, i, l.(status := Released), name);
      }
      forall k | 0 <= k < |t.leases| ensures GoodLease(t.pool, t.leases[k]) {
        assert GoodLease(s.pool, s.leases[k]);
      }
    }
  }

  lemma ClaimKeeps(s: System, i: nat, at: real)
    requires Conserved(s) && WithinCapacity(s.pool)
    ensures Conserved(Step(s, Claim(i, at))) && WithinCapacity(Step(s, Claim(i, at)).pool)
  {
    if i < |s.leases| && s.leases[i].status == Reserved {
      AdvanceKeepsUse(s.pool, s.leases[i].rates, at);
      var t := System(Advance(s.pool, s.leases[i].rates, at).0, s.leases);
      SameUseKeeps(s, t.pool);
      var claimed := s.leases[i := s.leases[i].(status := Claimed)];
      forall name ensures HeldOf(claimed, name) == HeldOf(s.leases, name) {
        HeldUpdate(s.leases, i, s.leases[i].(status := Claimed), name);
      }
    }
  }

  function Run(s: System, events: seq<Event>): System {
    if events == [] then s else Step(Run(s, events[..|events| - 1]), events[|events| - 1])
  }

  /** Over every run: use equals what the unreleased leases hold, and never exceeds a capacity. */
  lemma {:induction false} RunKeepsCapacity(s: System, events: seq<Event>)
    requires Conserved(s) && WithinCapacity(s.pool)
    requires forall i :: 0 <= i < |events| && events[i].Dispatch? ==> IsDict(events[i].eff)
    ensures Conserved(Run(s, events)) && WithinCapacity(Run(s, events).pool)
  {
    if events != [] {
      var before, e := Run(s, events[..|events| - 1]), events[|events| - 1];
      RunKeepsCapacity(s, events[..|events| - 1]);
      match e {
        case Dispatch(eff, scan, signals, now) => DispatchKeeps(before, eff, scan, signals, now);
        case Claim(i, at) => ClaimKeeps(before, i, at);
        case Release(i) => ReleaseKeeps(before, i);
        case Suspend(sig) =>
          SignalsKeepUse(before.pool, [sig]);
          assert [sig][..0] == [];
          SameUseKeeps(before, SuspendOne(before.pool, sig));
      }
    }
  }

  /** When every lease has been released, nothing is in use. */
  lemma AllReleasedMeansFree(s: System)
    requires Conserved(s) && forall i :: 0 <= i < |s.leases| ==> s.leases[i].status == Released
    ensures forall name :: name in s.pool && s.pool[name].Capacity? ==> s.pool[name].used == 0.0
  {
    forall name ensures HeldOf(s.leases, name) == 0.0 {
      ReleasedHoldNothing(s.leases, name);
    }
  }

  lemma ReleasedHoldNothing(leases: seq<Lease>, name: string)
    requires forall i :: 0 <= i < |leases| ==> leases[i].status == Released
    ensures HeldOf(leases, name) == 0.0
  {
    if leases != [] {
      ReleasedHoldNothing(leases[..|leases| - 1], name);
    }
  }

  // ---- what a step does ----

  /** A release ends its lease, and takes off every capacity exactly what the lease held of it. */
  lemma ReleaseFrees(s: System, i: nat)
    requires Conserved(s) && i < |s.leases| && s.leases[i].status != Released
    ensures var t := Step(s, Release(i));
      && t.leases == s.leases[i := s.leases[i].(status := Released)]
      && Shifted(s.pool, t.pool, s.leases[i].acquired, -1.0)
  {
    assert GoodLease(s.pool, s.leases[i]);
    forall k | 0 <= k < |s.leases| ensures NonNegative(s.leases[k].acquired) {
      assert GoodLease(s.pool, s.leases[k]);
    }
    forall name | name in s.pool && s.pool[name].Capacity?
      ensures s.pool[name].used >= AmountOf(s.leases[i].acquired, name)
    {
      HeldCovers(s.leases, i, name);
    }
    ReleaseIsExact(s.pool, s.leases[i].acquired);
  }

  /** A dispatch after an available scan whose items all pass adds one reserved lease, and puts exactly
      what it holds on the capacities; any other dispatch changes neither leases nor use. */
  lemma DispatchTakes(s: System, eff: Bag, scan: real, signals: seq<Signal>, now: real)
    requires Conserved(s) && WithinCapacity(s.pool)
    ensures var t := Step(s, Dispatch(eff, scan, signals, now));
      var p := SuspendAll(s.pool, signals);
      if Evaluate(s.pool, eff, scan, 0.0) == Available && forall i :: 0 <= i < |eff| ==> Passes(p, eff[i], now) then
        && |t.leases| == |s.leases| + 1 && t.leases[..|s.leases|] == s.leases
        && t.leases[|s.leases|].status == Reserved && Shifted(p, t.pool, t.leases[|s.leases|].acquired, 1.0)
      else t.leases == s.leases && SameUse(s.pool, t.pool)
  {
    var p := SuspendAll(s.pool, signals);
    SignalsKeepUse(s.pool, signals);
    ReserveDecides(p, eff, now);
    if Reserve(p, eff, now).1.Granted? {
      GrantAddsAcquired(p, eff, now);
    } else {
      forall name | name in p && p[name].Capacity? ensures p[name].used >= 0.0 {
        assert SameUseOf(s.pool[name], p[name]);
      }
      RefusalRestores(p, eff, now);
    }
  }

  /** A claim marks a reserved lease if every of its limits accepts its amount. */
  lemma ClaimMarks(s: System, i: nat, at: real)
    requires Conserved(s) && i < |s.leases| && s.leases[i].status == Reserved
    ensures var t := Step(s, Claim(i, at));
      && SameUse(s.pool, t.pool)
      && t.leases == if forall k :: 0 <= k < |s.leases[i].rates| ==> s.leases[i].rates[k].1 >= 0.0
                     then s.leases[i := s.leases[i].(status := Claimed)] else s.leases
  {
    assert GoodLease(s.pool, s.leases[i]);
    AdvanceKeepsUse(s.pool, s.leases[i].rates, at);
    AdvanceAccepts(s.pool, s.leases[i].rates, at);
  }

  lemma {:induction false} AdvanceAccepts(pool: Pool, rates: Bag, now: real)
    requires forall i :: 0 <= i < |rates| ==> rates[i].0 in pool && pool[rates[i].0].RateLimit?
    ensures Advance(pool, rates, now).1 <==> forall k :: 0 <= k < |rates| ==> rates[k].1 >= 0.0
  {
    if rates != [] {
      var r, rest := pool[rates[0].0].Acquire(rates[0].1, now), rates[1..];
      assert forall i :: 0 <= i < |rest| ==> rest[i] == rates[i + 1];
      assert forall i :: 0 < i < |rates| ==> rates[i] == rest[i - 1];
      if r.Some? {
        AdvanceAccepts(pool[rates[0].0 := r.value], rest, now);
      }
    }
  }
}
