/** Capacity and rate-limit resources, their two-phase leases, and what holds of them over whole
    runs of scanning, reserving, claiming, releasing and suspending. */
module Resources {
  import opened Jobs
  import opened Scheduler

  const MAX_SUSPEND_SECONDS := 86400.0
  const CAPACITY_POLL_INTERVAL := 0.5

  datatype Answer = Yes | Later(wait: real) | Never

  function Max(a: real, b: real): real { if a >= b then a else b }

  /** A suspension request: nothing for non-positive values, a day at most. */
  function Clamp(seconds: real): real {
    if seconds <= 0.0 then 0.0 else if seconds > MAX_SUSPEND_SECONDS then MAX_SUSPEND_SECONDS else seconds
  }

  datatype Resource =
    | Capacity(max: real, used: real, suspendedUntil: real, overruns: nat)
    | RateLimit(interval: real, next: real)
  {
    function CanAcquire(amount: real, now: real): Answer {
      match this
      case Capacity(max, used, until, _) =>
        if amount > max then Never
        else if now < until then Later(until - now)
        else if used + amount <= max then Yes
        else Later(CAPACITY_POLL_INTERVAL)
      case RateLimit(_, next) => if now >= next then Yes else Later(next - now)
    }

    /** `None` when the amount is refused. Free capacity is not looked at. */
    function Acquire(amount: real, now: real): Option<Resource> {
      match this
      case Capacity(max, used, _, _) =>
        if amount < 0.0 || amount > max then None else Some(this.(used := used + amount))
      case RateLimit(interval, next) =>
        if amount < 0.0 then None else Some(this.(next := Max(now, next) + interval * amount))
    }

    /** `None` when the amount is refused. Releasing more than is used is counted, and clamped. */
    function Release(amount: real): Option<Resource> {
      match this
      case Capacity(_, used, _, overruns) =>
        if amount < 0.0 then None
        else Some(this.(used := Max(0.0, used - amount), overruns := if amount > used then overruns + 1 else overruns))
      case RateLimit(_, _) => Some(this)
    }

    /** Suspensions do not add up: the later deadline wins. */
    function Suspend(seconds: real, now: real): Resource {
      match this
      case Capacity(_, _, until, _) => this.(suspendedUntil := Max(until, now + Clamp(seconds)))
      case RateLimit(_, next) => this.(next := Max(next, now + Clamp(seconds)))
    }
  }

  type Pool = map<string, Resource>

  /** A dictionary of amounts, in its order. */
  type Bag = seq<(string, real)>

  ghost predicate IsDict(b: Bag) {
    forall i, j :: 0 <= i < j < |b| ==> b[i].0 != b[j].0
  }

  function Lookup(b: Bag, name: string): Option<real> {
    if b == [] then None else if b[0].0 == name then Some(b[0].1) else Lookup(b[1..], name)
  }

  // ---- effective resources ----

  /** Dictionary merge: the keys of `a` in order, values of `b` winning, then the other keys of `b`. */
  function Merge(a: Bag, b: Bag): Bag {
    Overridden(a, b) + Extra(a, b)
  }

  function Overridden(a: Bag, b: Bag): Bag {
    if a == [] then []
    else [(a[0].0, if Lookup(b, a[0].0).Some? then Lookup(b, a[0].0).value else a[0].1)] + Overridden(a[1..], b)
  }

  function Extra(a: Bag, b: Bag): Bag {
    if b == [] then []
    else (if Lookup(a, b[0].0).Some? then [] else [b[0]]) + Extra(a, b[1..])
  }

  lemma LookupAppend(a: Bag, b: Bag, name: string)
    ensures Lookup(a + b, name) == if Lookup(a, name).Some? then Lookup(a, name) else Lookup(b, name)
  {
    if a == [] {
      assert a + b == b;
    } else {
      assert (a + b)[1..] == a[1..] + b;
    }
  }

  lemma LookupOverridden(a: Bag, b: Bag, name: string)
    ensures Lookup(Overridden(a, b), name) ==
      if Lookup(a, name).None? then None else if Lookup(b, name).Some? then Lookup(b, name) else Lookup(a, name)
  {
    if a != [] {
      LookupOverridden(a[1..], b, name);
      assert Overridden(a, b)[1..] == Overridden(a[1..], b);
    }
  }

  lemma LookupExtra(a: Bag, b: Bag, name: string)
    ensures Lookup(Extra(a, b), name) == if Lookup(a, name).Some? then None else Lookup(b, name)
  {
    if b != [] {
      LookupExtra(a, b[1..], name);
      if Lookup(a, b[0].0).None? {
        assert Extra(a, b)[1..] == Extra(a, b[1..]);
      } else {
        assert Extra(a, b) == Extra(a, b[1..]);
      }
    }
  }

  /** The declared value of a key if there is one, else the default. */
  lemma MergeMeans(defaults: Bag, declared: Bag, name: string)
    ensures Lookup(Merge(defaults, declared), name) ==
      if Lookup(declared, name).Some? then Lookup(declared, name) else Lookup(defaults, name)
  {
    LookupOverridden(defaults, declared, name);
    LookupExtra(defaults, declared, name);
    LookupAppend(Overridden(defaults, declared), Extra(defaults, declared), name);
  }

  lemma LookupDict(b: Bag, i: nat)
    requires IsDict(b) && i < |b|
    ensures Lookup(b, b[i].0) == Some(b[i].1)
  {
    if i > 0 {
      assert b[0].0 != b[i].0;
      LookupDict(b[1..], i - 1);
    }
  }

  /** Normalising a job's resources beforehand changes neither the amounts nor their order. */
  lemma MergeIdempotent(defaults: Bag, declared: Bag)
    requires IsDict(defaults)
    ensures Merge(defaults, Merge(defaults, declared)) == Merge(defaults, declared)
  {
    var once := Merge(defaults, declared);
    forall i | 0 <= i < |defaults| ensures Lookup(once, defaults[i].0) ==
      if Lookup(declared, defaults[i].0).Some? then Lookup(declared, defaults[i].0) else Some(defaults[i].1)
    {
      LookupDict(defaults, i);
      MergeMeans(defaults, declared, defaults[i].0);
    }
    OverriddenSame(defaults, declared, once);
    forall i | 0 <= i < |defaults| ensures Lookup(defaults, defaults[i].0).Some? {
      LookupDict(defaults, i);
    }
    ExtraAppend(defaults, Overridden(defaults, declared), Extra(defaults, declared));
    ExtraOfOwnKeys(defaults, defaults, declared);
    ExtraOfExtra(defaults, declared);
    assert [] + Extra(defaults, declared) == Extra(defaults, declared);
  }

  lemma OverriddenSame(a: Bag, b: Bag, once: Bag)
    requires forall i :: 0 <= i < |a| ==>
      Lookup(once, a[i].0) == if Lookup(b, a[i].0).Some? then Lookup(b, a[i].0) else Some(a[i].1)
    ensures Overridden(a, once) == Overridden(a, b)
  {
    if a != [] {
      assert Lookup(once, a[0].0) == if Lookup(b, a[0].0).Some? then Lookup(b, a[0].0) else Some(a[0].1);
      assert forall i :: 0 <= i < |a[1..]| ==> a[1..][i] == a[i + 1];
      OverriddenSame(a[1..], b, once);
    }
  }

  lemma ExtraAppend(a: Bag, b: Bag, c: Bag)
    ensures Extra(a, b + c) == Extra(a, b) + Extra(a, c)
  {
    if b == [] {
      assert b + c == c;
    } else {
      assert (b + c)[1..] == b[1..] + c;
      ExtraAppend(a, b[1..], c);
    }
  }

  lemma ExtraOfOwnKeys(whole: Bag, a: Bag, b: Bag)
    requires forall i :: 0 <= i < |a| ==> Lookup(whole, a[i].0).Some?
    ensures Extra(whole, Overridden(a, b)) == []
  {
    if a != [] {
      ExtraOfOwnKeys(whole, a[1..], b);
      assert Overridden(a, b)[1..] == Overridden(a[1..], b);
    }
  }

  lemma ExtraOfExtra(a: Bag, b: Bag)
    ensures Extra(a, Extra(a, b)) == Extra(a, b)
  {
    if b != [] {
      ExtraOfExtra(a, b[1..]);
      if Lookup(a, b[0].0).None? {
        assert Extra(a, b)[1..] == Extra(a, b[1..]);
      } else {
        assert Extra(a, b) == Extra(a, b[1..]);
      }
    }
  }

  // ---- evaluation ----

  /** Item `i` cannot be waited for. */
  predicate Hopeless(pool: Pool, item: (string, real), now: real) {
    item.0 !in pool || pool[item.0].CanAcquire(item.1, now) == Never
  }

  /** The verdict on the items from some point on, `wait` being the longest wait before it. */
  function Evaluate(pool: Pool, eff: Bag, now: real, wait: real): Evaluation {
    if eff == [] then if wait > 0.0 then Busy(wait) else Available
    else if eff[0].0 !in pool then UnknownResource
    else match pool[eff[0].0].CanAcquire(eff[0].1, now)
      case Never => ImpossibleAmount
      case Later(w) => Evaluate(pool, eff[1..], now, Max(wait, w))
      case Yes => Evaluate(pool, eff[1..], now, wait)
  }

  /** Available means every resource is; otherwise the first hopeless one decides, and a wait is
      the longest of the waits. */
  lemma {:induction false} EvaluateMeans(pool: Pool, eff: Bag, now: real, wait: real)
    requires wait >= 0.0
    ensures var e := Evaluate(pool, eff, now, wait);
      && (e == Available <==> wait == 0.0 && forall i :: 0 <= i < |eff| ==>
          eff[i].0 in pool && pool[eff[i].0].CanAcquire(eff[i].1, now) == Yes)
      && (e.Busy? || e.Available? <==> forall i :: 0 <= i < |eff| ==> !Hopeless(pool, eff[i], now))
      && (e == UnknownResource ==> exists i :: 0 <= i < |eff| && eff[i].0 !in pool)
      && (e.Busy? ==> e.wait >= wait && (e.wait == wait || exists i ::
            0 <= i < |eff| && eff[i].0 in pool && pool[eff[i].0].CanAcquire(eff[i].1, now) == Later(e.wait)))
      && (e.Busy? ==>
          forall i :: 0 <= i < |eff| && eff[i].0 in pool && pool[eff[i].0].CanAcquire(eff[i].1, now).Later? ==>
            pool[eff[i].0].CanAcquire(eff[i].1, now).wait <= e.wait)
  {
    if eff != [] {
      var head, rest := eff[0], eff[1..];
      assert forall i :: 0 <= i < |rest| ==> rest[i] == eff[i + 1];
      assert forall i :: 0 < i < |eff| ==> eff[i] == rest[i - 1];
      if !Hopeless(pool, head, now) {
        var a := pool[head.0].CanAcquire(head.1, now);
        LaterIsPositive(pool[head.0], head.1, now);
        EvaluateMeans(pool, rest, now, if a.Later? then Max(wait, a.wait) else wait);
      }
    }
  }

  lemma LaterIsPositive(r: Resource, amount: real, now: real)
    ensures r.CanAcquire(amount, now).Later? ==> r.CanAcquire(amount, now).wait > 0.0
  {
  }

  // ---- amounts ----

  function AmountOf(b: Bag, name: string): real {
    if b == [] then 0.0 else (if b[0].0 == name then b[0].1 else 0.0) + AmountOf(b[1..], name)
  }

  ghost predicate NonNegative(b: Bag) {
    forall i :: 0 <= i < |b| ==> b[i].1 >= 0.0
  }

  lemma AmountNonNegative(b: Bag, name: string)
    requires NonNegative(b)
    ensures AmountOf(b, name) >= 0.0
  {
    if b != [] {
      AmountNonNegative(b[1..], name);
    }
  }

  lemma AmountAppend(a: Bag, b: Bag, name: string)
    ensures AmountOf(a + b, name) == AmountOf(a, name) + AmountOf(b, name)
  {
    if a == [] {
      assert a + b == b;
    } else {
      assert (a + b)[1..] == a[1..] + b;
      AmountAppend(a[1..], b, name);
    }
  }

  /** In a dictionary the amount of a key is its value. */
  lemma AmountInDict(b: Bag, name: string)
    requires IsDict(b)
    ensures AmountOf(b, name) == if Lookup(b, name).Some? then Lookup(b, name).value else 0.0
  {
    if b != [] {
      AmountInDict(b[1..], name);
      if b[0].0 == name {
        LookupAbsent(b[1..], name);
      }
    }
  }

  lemma LookupAbsent(b: Bag, name: string)
    requires forall i :: 0 <= i < |b| ==> b[i].0 != name
    ensures Lookup(b, name).None?
  {
    if b != [] {
      LookupAbsent(b[1..], name);
    }
  }

  /** `after` is `before` with the amounts of `b` taken off its capacities, nothing clamped. */
  ghost predicate Shifted(before: Pool, after: Pool, b: Bag, sign: real) {
    && after.Keys == before.Keys
    && forall name :: name in before ==>
         after[name] ==
           if before[name].Capacity? then before[name].(used := before[name].used + sign * AmountOf(b, name))
           else before[name]
  }

  function ReleaseAll(pool: Pool, b: Bag): Pool {
    if b == [] then pool
    else
      var next := if b[0].0 in pool && pool[b[0].0].Release(b[0].1).Some?
                  then pool[b[0].0 := pool[b[0].0].Release(b[0].1).value] else pool;
      ReleaseAll(next, b[1..])
  }

  /** Releasing what is really held takes exactly that off, and counts no overrun. */
  lemma {:induction false} ReleaseIsExact(pool: Pool, b: Bag)
    requires NonNegative(b)
    requires forall name :: name in pool && pool[name].Capacity? ==> pool[name].used >= AmountOf(b, name)
    ensures Shifted(pool, ReleaseAll(pool, b), b, -1.0)
  {
    if b != [] {
      var head, rest := b[0], b[1..];
      AmountNonNegative(rest, head.0);
      var next := if head.0 in pool && pool[head.0].Release(head.1).Some?
                  then pool[head.0 := pool[head.0].Release(head.1).value] else pool;
      assert NonNegative(rest);
      assert forall name :: AmountOf(b, name) == (if head.0 == name then head.1 else 0.0) + AmountOf(rest, name);
      ReleaseIsExact(next, rest);
    }
  }

  // ---- reserving ----

  datatype Refusal = NotRegistered | RateLimited | BadAmount

  datatype Reservation = Granted(acquired: Bag, rates: Bag) | Refused(why: Refusal)

  /** Go through the items: take capacity, check rate limits; stop at the first refusal. */
  function Take(pool: Pool, eff: Bag, now: real, acquired: Bag, rates: Bag): (Pool, Bag, Reservation) {
    if eff == [] then (pool, acquired, Granted(acquired, rates))
    else
      var (name, amount) := eff[0];
      if name !in pool then (pool, acquired, Refused(NotRegistered))
      else if pool[name].RateLimit? then
        if pool[name].CanAcquire(amount, now) != Yes then (pool, acquired, Refused(RateLimited))
        else Take(pool, eff[1..], now, acquired, rates + [eff[0]])
      else
        var r := pool[name].Acquire(amount, now);
        if r.None? then (pool, acquired, Refused(BadAmount))
        else Take(pool[name := r.value], eff[1..], now, acquired + [eff[0]], rates)
  }

  /** Reserve, giving everything back on a refusal. */
  function Reserve(pool: Pool, eff: Bag, now: real): (Pool, Reservation) {
    var (taken, acquired, r) := Take(pool, eff, now, [], []);
    if r.Granted? then (taken, r) else (ReleaseAll(taken, acquired), r)
  }

  /** What was acquired on top of `acquired`. */
  ghost predicate TookOnly(before: Pool, after: Pool, acquired: Bag, all: Bag) {
    acquired <= all && NonNegative(all[|acquired|..]) && Shifted(before, after, all[|acquired|..], 1.0)
  }

  lemma {:induction false} TakeMeans(pool: Pool, eff: Bag, now: real, acquired: Bag, rates: Bag)
    ensures var (after, all, r) := Take(pool, eff, now, acquired, rates);
      TookOnly(pool, after, acquired, all) && (r.Granted? ==> r.acquired == all)
    decreases eff
  {
    if eff == [] {
      assert acquired[|acquired|..] == [];
    } else {
      var (name, amount) := eff[0];
      assert acquired[|acquired|..] == [];
      if name in pool && pool[name].RateLimit? {
        TakeMeans(pool, eff[1..], now, acquired, rates + [eff[0]]);
      } else if name in pool && pool[name].Acquire(amount, now).Some? {
        var r := pool[name].Acquire(amount, now);
        TakeMeans(pool[name := r.value], eff[1..], now, acquired + [eff[0]], rates);
        var (after, all, _) := Take(pool[name := r.value], eff[1..], now, acquired + [eff[0]], rates);
        TookOneMore(pool, after, acquired, eff[0], all, now);
      }
    }
  }

  lemma TookOneMore(pool: Pool, after: Pool, acquired: Bag, item: (string, real), all: Bag, now: real)
    requires item.0 in pool && pool[item.0].Capacity? && pool[item.0].Acquire(item.1, now).Some?
    requires TookOnly(pool[item.0 := pool[item.0].Acquire(item.1, now).value], after, acquired + [item], all)
    ensures TookOnly(pool, after, acquired, all)
  {
    var rest, more := all[|acquired| + 1..], all[|acquired|..];
    assert (acquired + [item])[|acquired|] == item && all[|acquired|] == item;
    assert more == [item] + rest;
    assert more[1..] == rest;
    assert acquired == all[..|acquired|];
    forall name ensures AmountOf(more, name) == (if item.0 == name then item.1 else 0.0) + AmountOf(rest, name) {
    }
  }

  ghost predicate NonNegativeUse(pool: Pool) {
    forall name :: name in pool && pool[name].Capacity? ==> pool[name].used >= 0.0
  }

  /** A refused reservation leaves every resource exactly as it was. */
  lemma RefusalRestores(pool: Pool, eff: Bag, now: real)
    requires NonNegativeUse(pool)
    ensures Reserve(pool, eff, now).1.Refused? ==> Reserve(pool, eff, now).0 == pool
  {
    var (taken, acquired, r) := Take(pool, eff, now, [], []);
    TakeMeans(pool, eff, now, [], []);
    assert acquired[0..] == acquired;
    if r.Refused? {
      ReleaseIsExact(taken, acquired);
    }
  }

  /** A granted reservation adds exactly the acquired amounts, which are capacity items of `eff`. */
  lemma GrantAddsAcquired(pool: Pool, eff: Bag, now: real)
    requires Reserve(pool, eff, now).1.Granted?
    ensures var (after, r) := Reserve(pool, eff, now);
      NonNegative(r.acquired) && Shifted(pool, after, r.acquired, 1.0)
  {
    TakeMeans(pool, eff, now, [], []);
    var (taken, acquired, r) := Take(pool, eff, now, [], []);
    assert acquired[0..] == acquired;
  }

  // ---- what a resource answers ----

  /** A capacity never has more than its maximum; it is to be had once a suspension is over and the rest
      of it suffices; otherwise the wait is that of the suspension, or the next look. */
  lemma CapacityAnswers(r: Resource, amount: real, now: real)
    requires r.Capacity?
    ensures r.CanAcquire(amount, now) == Never <==> amount > r.max
    ensures r.CanAcquire(amount, now) == Yes <==>
      amount <= r.max && now >= r.suspendedUntil && r.used + amount <= r.max
    ensures r.CanAcquire(amount, now).Later? ==>
      r.CanAcquire(amount, now).wait == if now < r.suspendedUntil then r.suspendedUntil - now else 0.5
  {
  }

  /** A rate limit is to be had from its next time on, for whatever amount. */
  lemma LimitAnswers(r: Resource, amount: real, now: real)
    requires r.RateLimit?
    ensures r.CanAcquire(amount, now) == if now >= r.next then Yes else Later(r.next - now)
  {
  }

  /** Until its deadline, a day away at most, a suspended resource is not to be had; from then on the
      suspension has changed no answer. It changes neither capacity nor use nor interval. */
  lemma SuspensionHolds(r: Resource, seconds: real, now: real, amount: real, t: real)
    ensures var s := r.Suspend(seconds, now);
      var deadline := if seconds <= 0.0 then now else if seconds <= 86400.0 then now + seconds else now + 86400.0;
      && (t < deadline ==> s.CanAcquire(amount, t) != Yes)
      && (t < deadline && s.CanAcquire(amount, t).Later? ==> t + s.CanAcquire(amount, t).wait >= deadline)
      && (t >= deadline ==> s.CanAcquire(amount, t) == r.CanAcquire(amount, t))
      && (s.CanAcquire(amount, t) == Never <==> r.CanAcquire(amount, t) == Never)
      && (r.Capacity? ==> s.Capacity? && s.max == r.max && s.used == r.used && s.overruns == r.overruns)
      && (r.RateLimit? ==> s.RateLimit? && s.interval == r.interval)
  {
  }

  /** A capacity gives any amount up to its maximum, and holds it; a rate limit moves on from the later of
      now and its next time, by the interval for every unit. */
  lemma AcquireMeans(r: Resource, amount: real, now: real)
    ensures r.Capacity? ==> (r.Acquire(amount, now).Some? <==> 0.0 <= amount <= r.max)
    ensures r.Capacity? && r.Acquire(amount, now).Some? ==>
      r.Acquire(amount, now).value == Capacity(r.max, r.used + amount, r.suspendedUntil, r.overruns)
    ensures r.RateLimit? ==> (r.Acquire(amount, now).Some? <==> amount >= 0.0)
    ensures r.RateLimit? && r.Acquire(amount, now).Some? ==>
      var after := r.Acquire(amount, now).value;
      && after.RateLimit? && after.interval == r.interval
      && (now >= r.next ==> after.next == now + r.interval * amount)
      && (now < r.next ==> after.next == r.next + r.interval * amount)
  {
  }

  /** A capacity takes back what it has given; more than that leaves nothing in use and is counted. */
  lemma ReleaseMeans(r: Resource, amount: real)
    ensures r.RateLimit? ==> r.Release(amount) == Some(r)
    ensures r.Capacity? ==> (r.Release(amount).Some? <==> amount >= 0.0)
    ensures r.Capacity? && 0.0 <= amount <= r.used ==>
      r.Release(amount).value == Capacity(r.max, r.used - amount, r.suspendedUntil, r.overruns)
    ensures r.Capacity? && amount >= 0.0 && amount > r.used ==>
      r.Release(amount).value == Capacity(r.max, 0.0, r.suspendedUntil, r.overruns + 1)
  {
  }

  /** The first item that no wait can help decides. */
  lemma {:induction false} FirstHopelessDecides(pool: Pool, eff: Bag, now: real, wait: real, i: nat)
    requires i < |eff| && Hopeless(pool, eff[i], now) && forall j :: 0 <= j < i ==> !Hopeless(pool, eff[j], now)
    ensures Evaluate(pool, eff, now, wait) == if eff[i].0 in pool then ImpossibleAmount else UnknownResource
  {
    if i > 0 {
      var rest, a := eff[1..], pool[eff[0].0].CanAcquire(eff[0].1, now);
      assert forall j :: 0 <= j < |rest| ==> rest[j] == eff[j + 1];
      FirstHopelessDecides(pool, rest, now, if a.Later? then Max(wait, a.wait) else wait, i - 1);
    }
  }

  // ---- what a reservation takes ----

  /** The item passes a reservation by itself: its limit is open, or its amount within the maximum. */
  ghost predicate Passes(pool: Pool, item: (string, real), now: real) {
    item.0 in pool && match pool[item.0]
      case RateLimit(_, next) => now >= next
      case Capacity(max, _, _, _) => 0.0 <= item.1 <= max
  }

  /** A reservation is granted if and only if every item passes; otherwise the first that does not
      decides the reason. */
  lemma ReserveDecides(pool: Pool, eff: Bag, now: real)
    ensures var r := Reserve(pool, eff, now).1;
      && (r.Granted? <==> forall i :: 0 <= i < |eff| ==> Passes(pool, eff[i], now))
      && (r.Refused? ==> exists i :: FirstRefused(pool, eff, now, i, r.why))
  {
    TakeDecides(pool, eff, now, [], []);
  }

  ghost predicate FirstRefused(pool: Pool, eff: Bag, now: real, i: int, why: Refusal) {
    && 0 <= i < |eff| && !Passes(pool, eff[i], now) && (forall j :: 0 <= j < i ==> Passes(pool, eff[j], now))
    && why == if eff[i].0 !in pool then NotRegistered else if pool[eff[i].0].RateLimit? then RateLimited else BadAmount
  }

  lemma {:induction false} TakeDecides(pool: Pool, eff: Bag, now: real, acquired: Bag, rates: Bag)
    ensures var r := Take(pool, eff, now, acquired, rates).2;
      && (r.Granted? <==> forall i :: 0 <= i < |eff| ==> Passes(pool, eff[i], now))
      && (r.Refused? ==> exists i :: FirstRefused(pool, eff, now, i, r.why))
    decreases eff
  {
    if eff != [] {
      var (name, amount) := eff[0];
      if !Passes(pool, eff[0], now) {
        assert FirstRefused(pool, eff, now, 0, Take(pool, eff, now, acquired, rates).2.why);
      } else if pool[name].RateLimit? {
        TakeDecides(pool, eff[1..], now, acquired, rates + [eff[0]]);
        LaterRefusal(pool, pool, eff, now);
      } else {
        var next := pool[name := pool[name].Acquire(amount, now).value];
        TakeDecides(next, eff[1..], now, acquired + [eff[0]], rates);
        LaterRefusal(pool, next, eff, now);
      }
    }
  }

  /** What passes is not changed by what was taken before. */
  lemma LaterRefusal(pool: Pool, next: Pool, eff: Bag, now: real)
    requires eff != [] && Passes(pool, eff[0], now) && SameLimits(pool, next)
    ensures (forall i :: 0 <= i < |eff| ==> Passes(pool, eff[i], now)) <==>
      (forall i :: 0 <= i < |eff[1..]| ==> Passes(next, eff[1..][i], now))
    ensures forall i, why :: FirstRefused(next, eff[1..], now, i, why) ==> FirstRefused(pool, eff, now, i + 1, why)
  {
    var rest := eff[1..];
    assert forall i :: 0 <= i < |rest| ==> rest[i] == eff[i + 1];
    assert forall x :: Passes(pool, x, now) <==> Passes(next, x, now);
    assert forall i :: 0 < i < |eff| ==> eff[i] == rest[i - 1];
  }

  ghost predicate SameLimits(a: Pool, b: Pool) {
    a.Keys == b.Keys && forall n :: n in a ==> match a[n]
      case RateLimit(_, next) => b[n].RateLimit? && b[n].next == next
      case Capacity(max, _, _, _) => b[n].Capacity? && b[n].max == max
  }

  /** What is granted splits the items, in their order: the capacities to hold, and the limits to claim. */
  lemma GrantSplits(pool: Pool, eff: Bag, now: real) returns (held: seq<nat>, claimed: seq<nat>)
    requires Reserve(pool, eff, now).1.Granted?
    ensures var r := Reserve(pool, eff, now).1; ReadOff(eff, held, r.acquired) && ReadOff(eff, claimed, r.rates)
    ensures forall i :: i in held <==> 0 <= i < |eff| && eff[i].0 in pool && pool[eff[i].0].Capacity?
    ensures forall i :: i in claimed <==> 0 <= i < |eff| && eff[i].0 in pool && pool[eff[i].0].RateLimit?
  {
    held, claimed := TakeSplits(pool, eff, now, eff, 0, [], [], [], []);
  }

  lemma {:induction false} TakeSplits(pool: Pool, eff: Bag, now: real, whole: Bag, n: nat, acquired: Bag, rates: Bag,
                                      held0: seq<nat>, claimed0: seq<nat>)
    returns (held: seq<nat>, claimed: seq<nat>)
    requires n <= |whole| && eff == whole[n..] && Take(pool, eff, now, acquired, rates).2.Granted?
    requires ReadOff(whole[..n], held0, acquired) && ReadOff(whole[..n], claimed0, rates)
    requires forall i :: i in held0 <==> 0 <= i < n && whole[i].0 in pool && pool[whole[i].0].Capacity?
    requires forall i :: i in claimed0 <==> 0 <= i < n && whole[i].0 in pool && pool[whole[i].0].RateLimit?
    ensures var r := Take(pool, eff, now, acquired, rates).2;
      ReadOff(whole, held, r.acquired) && ReadOff(whole, claimed, r.rates)
    ensures forall i :: i in held <==> 0 <= i < |whole| && whole[i].0 in pool && pool[whole[i].0].Capacity?
    ensures forall i :: i in claimed <==> 0 <= i < |whole| && whole[i].0 in pool && pool[whole[i].0].RateLimit?
    decreases eff
  {
    held, claimed := held0, claimed0;
    if eff == [] {
      assert whole[..n] == whole;
    } else {
      var (name, amount) := eff[0];
      assert whole[..n + 1] == whole[..n] + [eff[0]];
      ReadOffMore(whole[..n], eff[0], held0, acquired);
      ReadOffMore(whole[..n], eff[0], claimed0, rates);
      if pool[name].RateLimit? {
        held, claimed :=
          TakeSplits(pool, eff[1..], now, whole, n + 1, acquired, rates + [eff[0]], held0, claimed0 + [n]);
      } else {
        var next := pool[name := pool[name].Acquire(amount, now).value];
        held, claimed :=
          TakeSplits(next, eff[1..], now, whole, n + 1, acquired + [eff[0]], rates, held0 + [n], claimed0);
      }
    }
  }
}
