/** Claims of a rate-limited resource keep their distance, over every run of launches, suspensions
    and releases. */
module Spacing {
  import opened Jobs
  import opened Scheduler
  import opened Resources
  import opened Leases

  // ---- one rate limit ----

  /** What happens to one rate limit: a job that passed its check at `check` claims `amount` at
      `at`, the limit is suspended, or nothing. */
  datatype Tick = Claims(check: real, at: real, amount: real) | Suspends(seconds: real, now: real) | Passes

  function AfterTick(r: Resource, t: Tick): Resource {
    match t
    case Claims(_, at, amount) => if r.Acquire(amount, at).Some? then r.Acquire(amount, at).value else r
    case Suspends(seconds, now) => r.Suspend(seconds, now)
    case Passes => r
  }

  function AfterTicks(r: Resource, ticks: seq<Tick>, n: nat): Resource
    requires n <= |ticks|
  {
    if n == 0 then r else AfterTick(AfterTicks(r, ticks, n - 1), ticks[n - 1])
  }

  /** Each claim passed its check in the state it found, and not after it was made. */
  ghost predicate Checked(r: Resource, ticks: seq<Tick>) {
    forall n :: 0 <= n < |ticks| ==> CheckedAt(r, ticks, n)
  }

  ghost predicate CheckedAt(r: Resource, ticks: seq<Tick>, n: nat)
    requires n < |ticks|
  {
    ticks[n].Claims? ==>
      && ticks[n].check <= ticks[n].at && ticks[n].amount >= 0.0
      && AfterTicks(r, ticks, n).CanAcquire(ticks[n].amount, ticks[n].check) == Yes
  }

  function TickAmount(t: Tick): real {
    if t.Claims? then t.amount else 0.0
  }

  /** The amounts claimed from tick `i` on, up to but without tick `j`. */
  function AmountClaimed(ticks: seq<Tick>, i: nat, j: nat): real
    requires i <= j <= |ticks|
  {
    if i == j then 0.0
    else AmountClaimed(ticks, i, j - 1) + TickAmount(ticks[j - 1])
  }

  /** How far one tick moves the next free moment at least. */
  function Span(interval: real, t: Tick): real {
    if t.Claims? then interval * t.amount else 0.0
  }

  function Spans(interval: real, ticks: seq<Tick>, i: nat, j: nat): real
    requires i <= j <= |ticks|
  {
    if i == j then 0.0 else Spans(interval, ticks, i, j - 1) + Span(interval, ticks[j - 1])
  }

  lemma SpansAreScaled(interval: real, ticks: seq<Tick>, i: nat, j: nat)
    requires i <= j <= |ticks|
    ensures Spans(interval, ticks, i, j) == interval * AmountClaimed(ticks, i, j)
  {
    if i < j {
      SpansAreScaled(interval, ticks, i, j - 1);
      Distribute(interval, AmountClaimed(ticks, i, j - 1), TickAmount(ticks[j - 1]));
    }
  }

  lemma Distribute(k: real, a: real, b: real)
    ensures k * (a + b) == k * a + k * b
  {
  }

  lemma TickMovesOn(r: Resource, t: Tick)
    requires r.RateLimit? && (t.Claims? ==> t.amount >= 0.0)
    ensures AfterTick(r, t).RateLimit? && AfterTick(r, t).interval == r.interval
    ensures AfterTick(r, t).next >= r.next + Span(r.interval, t)
    ensures t.Claims? ==> AfterTick(r, t).next >= t.at + Span(r.interval, t)
  {
    if t.Claims? {
      var step := r.interval * t.amount;
      assert Span(r.interval, t) == step && r.Acquire(t.amount, t.at).Some?;
      assert AfterTick(r, t).next == Max(t.at, r.next) + step;
    }
  }

  /** A record of the next free moments, without the arithmetic that produced them. */
  ghost predicate Recorded(interval: real, ticks: seq<Tick>, next: seq<real>) {
    && |next| == |ticks| + 1
    && forall n :: 0 <= n < |ticks| ==> MovesOn(interval, ticks[n], next[n], next[n + 1])
  }

  ghost predicate MovesOn(interval: real, t: Tick, before: real, after: real) {
    after >= before + Span(interval, t) &&
      (t.Claims? ==> before <= t.check <= t.at && after >= t.at + Span(interval, t))
  }

  lemma Record(r: Resource, ticks: seq<Tick>, n: nat) returns (next: seq<real>)
    requires r.RateLimit? && Checked(r, ticks) && n <= |ticks|
    ensures AfterTicks(r, ticks, n).RateLimit? && AfterTicks(r, ticks, n).interval == r.interval
    ensures Recorded(r.interval, ticks[..n], next) && next[n] == AfterTicks(r, ticks, n).next
  {
    if n == 0 {
      next := [r.next];
    } else {
      var front := Record(r, ticks, n - 1);
      assert CheckedAt(r, ticks, n - 1);
      TickMovesOn(AfterTicks(r, ticks, n - 1), ticks[n - 1]);
      next := front + [AfterTicks(r, ticks, n).next];
      assert ticks[..n][..n - 1] == ticks[..n - 1];
      forall m | 0 <= m < n ensures MovesOn(r.interval, ticks[..n][m], next[m], next[m + 1]) {
        if m < n - 1 {
          assert MovesOn(r.interval, ticks[..n - 1][m], front[m], front[m + 1]);
        }
      }
    }
  }

  /** The next free moment lies at least the spans claimed from `i` on after claim `i`. */
  lemma {:induction false} NextIsFar(interval: real, ticks: seq<Tick>, next: seq<real>, i: nat, j: nat)
    requires Recorded(interval, ticks, next) && i < j <= |ticks| && ticks[i].Claims?
    ensures next[j] >= ticks[i].at + Spans(interval, ticks, i, j)
    decreases j - i
  {
    assert MovesOn(interval, ticks[j - 1], next[j - 1], next[j]);
    if j > i + 1 {
      NextIsFar(interval, ticks, next, i, j - 1);
    } else {
      assert Spans(interval, ticks, i, i) == 0.0;
    }
  }

  /** From one claim to a later one pass at least the spans claimed from the first one on. */
  lemma ClaimsLieSpansApart(r: Resource, ticks: seq<Tick>, i: nat, j: nat)
    requires r.RateLimit? && Checked(r, ticks)
    requires i < j < |ticks| && ticks[i].Claims? && ticks[j].Claims?
    ensures ticks[j].at >= ticks[i].at + Spans(r.interval, ticks, i, j)
  {
    var next := Record(r, ticks, |ticks|);
    assert ticks[..|ticks|] == ticks;
    NextIsFar(r.interval, ticks, next, i, j);
    assert MovesOn(r.interval, ticks[j], next[j], next[j + 1]);
  }

  /** Whatever suspensions come between: the time from one claim to a later one is at least the
      interval times everything claimed from the first one on, the later one not counted. */
  lemma ClaimsKeepDistance(r: Resource, ticks: seq<Tick>, i: nat, j: nat)
    requires r.RateLimit? && Checked(r, ticks)
    requires i < j < |ticks| && ticks[i].Claims? && ticks[j].Claims?
    ensures ticks[j].at - ticks[i].at >= r.interval * AmountClaimed(ticks, i, j)
  {
    ClaimsLieSpansApart(r, ticks, i, j);
    SpansAreScaled(r.interval, ticks, i, j);
  }

  /** In particular, two claims with no other claim between them. */
  lemma AdjacentClaimsKeepDistance(r: Resource, ticks: seq<Tick>, i: nat, j: nat)
    requires r.RateLimit? && Checked(r, ticks)
    requires i < j < |ticks| && ticks[i].Claims? && ticks[j].Claims? && forall k :: i < k < j ==> !ticks[k].Claims?
    ensures ticks[j].at - ticks[i].at >= r.interval * ticks[i].amount
  {
    ClaimsKeepDistance(r, ticks, i, j);
    OnlyFirst(ticks, i, j);
  }

  lemma OnlyFirst(ticks: seq<Tick>, i: nat, j: nat)
    requires i < j <= |ticks| && ticks[i].Claims? && forall k :: i < k < j ==> !ticks[k].Claims?
    ensures AmountClaimed(ticks, i, j) == ticks[i].amount
  {
    if j == i + 1 {
      assert AmountClaimed(ticks, i, i) == 0.0;
    } else {
      OnlyFirst(ticks, i, j - 1);
    }
  }

  // ---- runs of the engine ----

  /** A launch reserves at `now` and, if the worker starts, claims at `at`; a signal suspends a
      resource; a finished job gives its capacities back. */
  datatype Move = Launching(eff: Bag, now: real, at: real, starts: bool) | Signalled(sig: Signal) | GivenBack(bag: Bag)

  /** The pool after one launch, whatever becomes of it. */
  function AfterLaunch(pool: Pool, eff: Bag, now: real, at: real, starts: bool): Pool {
    var (after, r) := Reserve(pool, eff, now);
    if r.Refused? then after
    else if !starts then ReleaseAll(after, r.acquired)
    else
      var (advanced, ok) := Advance(after, r.rates, at);
      if ok then advanced else ReleaseAll(advanced, r.acquired)
  }

  function AfterMove(pool: Pool, m: Move): Pool {
    match m
    case Launching(eff, now, at, starts) => AfterLaunch(pool, eff, now, at, starts)
    case Signalled(sig) => SuspendOne(pool, sig)
    case GivenBack(bag) => ReleaseAll(pool, bag)
  }

  function PoolAfter(pool: Pool, moves: seq<Move>, n: nat): Pool
    requires n <= |moves|
  {
    if n == 0 then pool else AfterMove(PoolAfter(pool, moves, n - 1), moves[n - 1])
  }

  /** How much of the named limit advancing takes, before it is done or refused. */
  function Taken(pool: Pool, rates: Bag, at: real, name: string): Option<real> {
    if rates == [] then None
    else if rates[0].0 !in pool then Taken(pool, rates[1..], at, name)
    else
      var r := pool[rates[0].0].Acquire(rates[0].1, at);
      if r.None? then None
      else if rates[0].0 == name then Some(rates[0].1)
      else Taken(pool[rates[0].0 := r.value], rates[1..], at, name)
  }

  /** What one move is to the named limit. */
  function TickOf(pool: Pool, m: Move, name: string): Tick {
    match m
    case Launching(eff, now, at, starts) =>
      var (after, r) := Reserve(pool, eff, now);
      if r.Granted? && starts && Taken(after, r.rates, at, name).Some?
      then Claims(now, at, Taken(after, r.rates, at, name).value) else Passes
    case Signalled(sig) => if sig.name == name then Suspends(sig.seconds, sig.now) else Passes
    case GivenBack(_) => Passes
  }

  /** Effective resources name each resource once, and a claim is not earlier than its check. */
  ghost predicate Orderly(m: Move) {
    m.Launching? ==> IsDict(m.eff) && m.now <= m.at
  }

  lemma {:induction false} ReleaseKeepsLimit(pool: Pool, bag: Bag, name: string)
    requires name in pool && pool[name].RateLimit?
    ensures name in ReleaseAll(pool, bag) && ReleaseAll(pool, bag)[name] == pool[name]
  {
    if bag != [] {
      var next := if bag[0].0 in pool && pool[bag[0].0].Release(bag[0].1).Some?
                  then pool[bag[0].0 := pool[bag[0].0].Release(bag[0].1).value] else pool;
      ReleaseKeepsLimit(next, bag[1..], name);
    }
  }

  /** Reserving leaves limits alone, and what it grants of one is what was asked, once, and free. */
  lemma {:induction false} TakeKeepsLimit(pool: Pool, eff: Bag, now: real, acquired: Bag, rates: Bag, name: string)
    requires name in pool && pool[name].RateLimit?
    ensures var (after, _, r) := Take(pool, eff, now, acquired, rates);
      && name in after && after[name] == pool[name]
      && (r.Granted? ==> rates <= r.rates && Lookup(r.rates[|rates|..], name) == Lookup(eff, name))
      && (r.Granted? && Lookup(eff, name).Some? ==> now >= pool[name].next)
    decreases eff
  {
    if eff != [] && eff[0].0 in pool {
      var (n, amount) := eff[0];
      if pool[n].RateLimit? {
        if pool[n].CanAcquire(amount, now) == Yes {
          TakeKeepsLimit(pool, eff[1..], now, acquired, rates + [eff[0]], name);
          var r := Take(pool, eff[1..], now, acquired, rates + [eff[0]]).2;
          if r.Granted? {
            assert (rates + [eff[0]])[|rates|] == r.rates[|rates|] == eff[0];
            assert rates == r.rates[..|rates|];
            assert r.rates[|rates|..][1..] == r.rates[|rates + [eff[0]]|..];
          }
        }
      } else if pool[n].Acquire(amount, now).Some? {
        TakeKeepsLimit(pool[n := pool[n].Acquire(amount, now).value], eff[1..], now, acquired + [eff[0]], rates, name);
      }
    }
  }

  /** What is granted of limits is part of what was asked, so it names each of them once. */
  lemma {:induction false} TakeKeepsDict(pool: Pool, eff: Bag, now: real, acquired: Bag, rates: Bag)
    requires IsDict(eff) && Take(pool, eff, now, acquired, rates).2.Granted?
    ensures var r := Take(pool, eff, now, acquired, rates).2;
      rates <= r.rates && IsDict(r.rates[|rates|..]) && forall x :: x in r.rates[|rates|..] ==> x in eff
    decreases eff
  {
    if eff != [] {
      var (n, amount) := eff[0];
      if pool[n].RateLimit? {
        TakeKeepsDict(pool, eff[1..], now, acquired, rates + [eff[0]]);
        var r := Take(pool, eff[1..], now, acquired, rates + [eff[0]]).2;
        var mine, rest := r.rates[|rates|..], r.rates[|rates + [eff[0]]|..];
        assert (rates + [eff[0]])[|rates|] == r.rates[|rates|] == eff[0];
        assert rates == r.rates[..|rates|];
        assert mine == [eff[0]] + rest;
        forall i, j | 0 <= i < j < |mine| ensures mine[i].0 != mine[j].0 {
          assert mine[j] == rest[j - 1] && rest[j - 1] in rest;
        }
      } else {
        TakeKeepsDict(pool[n := pool[n].Acquire(amount, now).value], eff[1..], now, acquired + [eff[0]], rates);
      }
    }
  }

  /** Advancing moves the named limit by what it takes of it, and by nothing else. */
  lemma {:induction false} AdvanceMovesLimit(pool: Pool, rates: Bag, at: real, name: string)
    requires IsDict(rates) && name in pool && pool[name].RateLimit?
    ensures var after := Advance(pool, rates, at).0;
      var tick := match Taken(pool, rates, at, name) case None => Passes case Some(a) => Claims(at, at, a);
      name in after && after[name] == AfterTick(pool[name], tick)
    ensures Taken(pool, rates, at, name).Some? ==>
      Lookup(rates, name) == Taken(pool, rates, at, name) && Taken(pool, rates, at, name).value >= 0.0
    ensures Advance(pool, rates, at).1 ==> Taken(pool, rates, at, name) == Lookup(rates, name)
  {
    if rates != [] {
      if rates[0].0 !in pool {
        AdvanceMovesLimit(pool, rates[1..], at, name);
      } else {
        var r := pool[rates[0].0].Acquire(rates[0].1, at);
        if r.Some? {
          AdvanceMovesLimit(pool[rates[0].0 := r.value], rates[1..], at, name);
          if rates[0].0 == name {
            NotAgain(rates, name);
            AdvanceMovesLimit(pool[name := r.value], rates[1..], at, name);
          }
        }
      }
    }
  }

  lemma NotAgain(rates: Bag, name: string)
    requires IsDict(rates) && rates != [] && rates[0].0 == name
    ensures Lookup(rates[1..], name) == None
  {
    if Lookup(rates[1..], name).Some? {
      var i := LookupIndex(rates[1..], name);
    }
  }

  /** One move is one tick of the named limit, and a claim passed its check in the state it found. */
  lemma MoveIsTick(pool: Pool, m: Move, name: string)
    requires Orderly(m) && name in pool && pool[name].RateLimit?
    ensures name in AfterMove(pool, m) && AfterMove(pool, m)[name] == AfterTick(pool[name], TickOf(pool, m, name))
    ensures AfterTick(pool[name], TickOf(pool, m, name)).RateLimit?
    ensures var t := TickOf(pool, m, name);
      t.Claims? ==> t.check <= t.at && t.amount >= 0.0 && pool[name].CanAcquire(t.amount, t.check) == Yes
  {
    match m {
      case Signalled(_) =>
      case GivenBack(bag) => ReleaseKeepsLimit(pool, bag, name);
      case Launching(eff, now, at, starts) =>
        var (taken, acquired, r) := Take(pool, eff, now, [], []);
        TakeKeepsLimit(pool, eff, now, [], [], name);
        ReleaseKeepsLimit(taken, acquired, name);
        if r.Granted? {
          assert r.rates[0..] == r.rates;
          TakeKeepsDict(pool, eff, now, [], []);
          ReleaseKeepsLimit(taken, r.acquired, name);
          AdvanceMovesLimit(taken, r.rates, at, name);
          ReleaseKeepsLimit(Advance(taken, r.rates, at).0, r.acquired, name);
        }
    }
  }

  /** A job that is launched claims exactly what it asked of the limit, at the moment it claims. */
  lemma LaunchClaims(pool: Pool, eff: Bag, now: real, at: real, name: string)
    requires IsDict(eff) && name in pool && pool[name].RateLimit? && Lookup(eff, name).Some?
    requires var (after, r) := Reserve(pool, eff, now); r.Granted? && Advance(after, r.rates, at).1
    ensures TickOf(pool, Launching(eff, now, at, true), name) == Claims(now, at, Lookup(eff, name).value)
  {
    var (after, r) := Reserve(pool, eff, now);
    TakeKeepsLimit(pool, eff, now, [], [], name);
    TakeKeepsDict(pool, eff, now, [], []);
    assert r.rates[0..] == r.rates;
    AdvanceMovesLimit(after, r.rates, at, name);
  }

  ghost predicate ReadsAs(pool: Pool, moves: seq<Move>, ticks: seq<Tick>, name: string, k: nat)
    requires k < |moves| == |ticks|
  {
    Orderly(moves[k]) && ticks[k] == TickOf(PoolAfter(pool, moves, k), moves[k], name)
  }

  /** `ticks` is what the run `moves` of the engine is to the named limit. */
  ghost predicate Reading(pool: Pool, moves: seq<Move>, ticks: seq<Tick>, name: string) {
    && name in pool && pool[name].RateLimit? && |moves| == |ticks|
    && forall k :: 0 <= k < |moves| ==> ReadsAs(pool, moves, ticks, name, k)
  }

  /** Every orderly run reads as ticks. */
  lemma RunReads(pool: Pool, moves: seq<Move>, name: string) returns (ticks: seq<Tick>)
    requires name in pool && pool[name].RateLimit? && forall k :: 0 <= k < |moves| ==> Orderly(moves[k])
    ensures Reading(pool, moves, ticks, name)
  {
    ticks := TicksUpTo(pool, moves, name, |moves|);
    forall k | 0 <= k < |moves| ensures ReadsAs(pool, moves, ticks, name, k) {
      assert ReadAt(pool, moves, name, k, ticks[k]);
    }
  }

  /** What the `k`-th move is to the limit. */
  ghost predicate ReadAt(pool: Pool, moves: seq<Move>, name: string, k: nat, t: Tick)
    requires k < |moves|
  {
    t == TickOf(PoolAfter(pool, moves, k), moves[k], name)
  }

  lemma {:induction false} TicksUpTo(pool: Pool, moves: seq<Move>, name: string, n: nat) returns (ticks: seq<Tick>)
    requires n <= |moves|
    ensures |ticks| == n && forall k :: 0 <= k < n ==> ReadAt(pool, moves, name, k, ticks[k])
  {
    ticks := [];
    if n > 0 {
      var front := TicksUpTo(pool, moves, name, n - 1);
      var last: Tick :| ReadAt(pool, moves, name, n - 1, last);
      ticks := front + [last];
    }
  }

  /** The ticks lead the limit to where the run leads it. */
  lemma {:induction false} RunIsTicks(pool: Pool, moves: seq<Move>, ticks: seq<Tick>, name: string, n: nat)
    requires Reading(pool, moves, ticks, name) && n <= |moves|
    ensures name in PoolAfter(pool, moves, n) && PoolAfter(pool, moves, n)[name].RateLimit?
    ensures PoolAfter(pool, moves, n)[name] == AfterTicks(pool[name], ticks, n)
  {
    if n > 0 {
      RunIsTicks(pool, moves, ticks, name, n - 1);
      assert ReadsAs(pool, moves, ticks, name, n - 1);
      MoveIsTick(PoolAfter(pool, moves, n - 1), moves[n - 1], name);
    }
  }

  /** And its claims passed their checks. */
  lemma RunIsChecked(pool: Pool, moves: seq<Move>, ticks: seq<Tick>, name: string)
    requires Reading(pool, moves, ticks, name)
    ensures Checked(pool[name], ticks)
  {
    forall n | 0 <= n < |ticks| ensures CheckedAt(pool[name], ticks, n) {
      RunIsTicks(pool, moves, ticks, name, n);
      assert ReadsAs(pool, moves, ticks, name, n);
      MoveIsTick(PoolAfter(pool, moves, n), moves[n], name);
    }
  }

  lemma ClaimTimes(pool: Pool, moves: seq<Move>, ticks: seq<Tick>, name: string, k: nat)
    requires Reading(pool, moves, ticks, name) && k < |moves| && ticks[k].Claims?
    ensures moves[k].Launching? && ticks[k].at == moves[k].at
  {
    assert ReadsAs(pool, moves, ticks, name, k);
  }

  /** Over every run of launches, signals and releases: from one claim of a limit to a later one
      passes at least the interval times all that was claimed from the first one on, the later one
      not counted. */
  lemma LaunchesKeepDistance(pool: Pool, moves: seq<Move>, ticks: seq<Tick>, name: string, i: nat, j: nat)
    requires Reading(pool, moves, ticks, name) && i < j < |moves| && ticks[i].Claims? && ticks[j].Claims?
    ensures moves[i].Launching? && moves[j].Launching?
    ensures moves[j].at - moves[i].at >= pool[name].interval * AmountClaimed(ticks, i, j)
  {
    RunIsChecked(pool, moves, ticks, name);
    ClaimsKeepDistance(pool[name], ticks, i, j);
    ClaimTimes(pool, moves, ticks, name, i);
    ClaimTimes(pool, moves, ticks, name, j);
  }

  /** Two launched jobs that asked for the same limit, the first for `amount`: the second claims at
      least the interval times `amount` later, whatever happened in between. */
  lemma LaunchedJobsKeepDistance(pool: Pool, moves: seq<Move>, name: string, i: nat, j: nat, amount: real, other: real)
    requires name in pool && pool[name].RateLimit? && pool[name].interval >= 0.0
    requires i < j < |moves| && forall k :: 0 <= k < |moves| ==> Orderly(moves[k])
    requires LaunchedFor(PoolAfter(pool, moves, i), moves[i], name, amount) &&
      LaunchedFor(PoolAfter(pool, moves, j), moves[j], name, other)
    ensures moves[j].at - moves[i].at >= pool[name].interval * amount
  {
    var ticks := RunReads(pool, moves, name);
    LaunchIsTick(pool, moves, ticks, name, i, amount);
    LaunchIsTick(pool, moves, ticks, name, j, other);
    ClaimKeepsDistance(pool, moves, ticks, name, i, j, amount);
  }

  lemma ClaimKeepsDistance(pool: Pool, moves: seq<Move>, ticks: seq<Tick>, name: string, i: nat, j: nat, amount: real)
    requires Reading(pool, moves, ticks, name) && pool[name].interval >= 0.0
    requires i < j < |moves| && ticks[i].Claims? && ticks[i].amount == amount && ticks[j].Claims?
    ensures moves[i].Launching? && moves[j].Launching?
    ensures moves[j].at - moves[i].at >= pool[name].interval * amount
  {
    LaunchesKeepDistance(pool, moves, ticks, name, i, j);
    RunIsChecked(pool, moves, ticks, name);
    FirstIsClaimed(pool[name], ticks, i, j);
    ScalesUp(pool[name].interval, amount, AmountClaimed(ticks, i, j));
  }

  /** The job got its resources, its worker started, and its claim went through; it asked for
      `amount` of the limit. */
  ghost predicate LaunchedFor(pool: Pool, m: Move, name: string, amount: real) {
    && m.Launching? && m.starts && Lookup(m.eff, name) == Some(amount)
    && var (after, r) := Reserve(pool, m.eff, m.now);
       r.Granted? && Advance(after, r.rates, m.at).1
  }

  lemma LaunchIsTick(pool: Pool, moves: seq<Move>, ticks: seq<Tick>, name: string, k: nat, amount: real)
    requires Reading(pool, moves, ticks, name) && k < |moves| &&
      LaunchedFor(PoolAfter(pool, moves, k), moves[k], name, amount)
    ensures ticks[k] == Claims(moves[k].now, moves[k].at, amount)
  {
    assert ReadsAs(pool, moves, ticks, name, k);
    RunIsTicks(pool, moves, ticks, name, k);
    LaunchClaims(PoolAfter(pool, moves, k), moves[k].eff, moves[k].now, moves[k].at, name);
  }

  lemma {:induction false} FirstIsClaimed(r: Resource, ticks: seq<Tick>, i: nat, j: nat)
    requires Checked(r, ticks) && i < j <= |ticks|
    ensures AmountClaimed(ticks, i, j) >= TickAmount(ticks[i])
  {
    assert CheckedAt(r, ticks, j - 1);
    if i < j - 1 {
      FirstIsClaimed(r, ticks, i, j - 1);
    } else {
      assert AmountClaimed(ticks, i, i) == 0.0;
    }
  }

  lemma ScalesUp(k: real, a: real, b: real)
    requires k >= 0.0 && a <= b
    ensures k * a <= k * b
  {
  }
}
