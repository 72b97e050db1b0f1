/** The grace window given to jobs that wait for missing dependencies, and when it is kept. */
module GraceWindow {
  import opened Jobs

  /** The episode kept between polls: its deadline and the missing set it belongs to. */
  datatype Grace = Grace(deadline: Option<real>, missing: Option<set<Uid>>)

  const OVER := Grace(None, None)

  /** A changed missing set starts a new episode. */
  function Stamp(g: Grace, missing: set<Uid>): Grace {
    Grace(if g.missing.Some? && g.missing.value != missing then None else g.deadline, Some(missing))
  }

  /** A deadline more than a whole window in the past is a leftover. */
  predicate Stale(g: Grace, now: real, window: real) {
    g.deadline.Some? && now - g.deadline.value > window
  }

  function GrantOrExpire(g: Grace, now: real, window: real): (Grace, bool) {
    var deadline := if g.deadline.Some? then g.deadline.value else now + window;
    if now < deadline then (g.(deadline := Some(deadline)), true) else (OVER, false)
  }

  /** One poll. `spawners` is the scan's verdict on potential spawners, if it gave one;
      otherwise `ready` says whether some other queued job has all its dependencies. The
      answer is whether the waiting goes on. */
  function Check(g: Grace, missing: set<Uid>, spawners: Option<bool>, ready: bool, now: real, window: real)
    : (Grace, bool)
  {
    if missing == {} then (g, false)
    else
      var stamped := Stamp(g, missing);
      var live := if Stale(stamped, now, window) then OVER else stamped;
      if spawners == Some(false) then (OVER, false)
      else if spawners.Some? || ready then GrantOrExpire(live, now, window)
      else (live, false)
  }

  function Progressed(g: Grace): Grace {
    if g.deadline.Some? then OVER else g
  }

  // ---- runs ----

  /** What the run loop asks: a poll for a missing set, a dispatch, a new run, or anything that
      leaves the episode alone. */
  datatype Event = Poll(missing: set<Uid>, spawners: bool, now: real) | Progress | Reset | Quiet

  function NextGrace(g: Grace, e: Event, window: real): Grace {
    match e
    case Poll(missing, spawners, now) => Check(g, missing, Some(spawners), false, now, window).0
    case Progress => Progressed(g)
    case Reset => OVER
    case Quiet => g
  }

  /** The governor's record, the missing set waited for (empty when none is), and when that
      wait began. */
  datatype Ledger = Ledger(g: Grace, sought: set<Uid>, since: real)
  {
    /** When the wait for `missing` began, seen at `now`. */
    function FirstSight(missing: set<Uid>, now: real, window: real): real {
      if missing == sought && !Stale(Stamp(g, missing), now, window) then since else now
    }

    function Next(e: Event, window: real): Ledger {
      match e
      case Progress => Ledger(NextGrace(g, e, window), {}, 0.0)
      case Reset => Ledger(NextGrace(g, e, window), {}, 0.0)
      case Quiet => this
      case Poll(missing, _, now) =>
        Ledger(NextGrace(g, e, window), if Waits(e, window) then missing else {}, FirstSight(missing, now, window))
    }

    predicate Waits(e: Event, window: real) {
      e.Poll? && Check(g, e.missing, Some(e.spawners), false, e.now, window).1
    }

    /** A deadline is live exactly while a set is waited for, and belongs to that set. */
    predicate Consistent() {
      (g.deadline.Some? <==> sought != {}) && (g.deadline.Some? && g.missing.Some? ==> g.missing.value == sought)
    }

    /** A live deadline leaves the wait a whole window. */
    predicate Fair(window: real) {
      g.deadline.Some? ==> g.deadline.value >= since + window
    }

    /** Condemned despite a potential spawner only after a whole window. */
    predicate FairVerdict(e: Event, window: real)
      requires e.Poll?
    {
      e.spawners && !Waits(e, window) ==> e.now - FirstSight(e.missing, e.now, window) >= window
    }

    /** The episode was renewed after a stale deadline, which cleared its missing set, and now
        another set shows up: nothing starts a new episode for it. */
    predicate Inherits(e: Event, window: real)
      requires e.Poll?
    {
      && e.spawners && g.deadline.Some? && g.missing.None? && e.missing != sought
      && !Stale(g, e.now, window) && g.deadline.value < e.now + window
    }
  }

  /** A poll is fair, and leaves a fair deadline, unless it inherits another set's deadline. */
  lemma PollIsFair(l: Ledger, e: Event, window: real)
    requires l.Consistent() && l.Fair(window) && window > 0.0 && e.Poll? && e.missing != {}
    ensures l.Next(e, window).Consistent()
    ensures l.FairVerdict(e, window) && l.Next(e, window).Fair(window) <==> !l.Inherits(e, window)
  {
  }

  lemma EventIsFair(l: Ledger, e: Event, window: real)
    requires l.Consistent() && l.Fair(window) && window > 0.0
    requires e.Poll? ==> e.missing != {} && !l.Inherits(e, window)
    ensures l.Next(e, window).Consistent() && l.Next(e, window).Fair(window)
  {
    if e.Poll? {
      PollIsFair(l, e, window);
    }
  }

  function After(events: seq<Event>, n: nat, window: real): Ledger
    requires n <= |events|
  {
    if n == 0 then Ledger(OVER, {}, 0.0) else After(events, n - 1, window).Next(events[n - 1], window)
  }

  /** The events `i..n` are one wait for `missing` with a potential spawner, without a dispatch, a
      new run, or a poll for anything else. */
  ghost predicate OneWait(events: seq<Event>, i: nat, n: nat, missing: set<Uid>, window: real)
    requires n <= |events|
  {
    forall k :: i <= k < n && !events[k].Quiet? ==>
      events[k].Poll? && events[k].spawners && events[k].missing == missing &&
        After(events, k, window).Waits(events[k], window)
  }

  ghost predicate NeverInherits(events: seq<Event>, n: nat, window: real)
    requires n <= |events|
  {
    forall k :: 0 <= k < n ==> CleanAt(events, k, window)
  }

  ghost predicate CleanAt(events: seq<Event>, k: nat, window: real)
    requires k < |events|
  {
    events[k].Poll? ==> events[k].missing != {} && !After(events, k, window).Inherits(events[k], window)
  }

  /** In every run, the current wait is an uninterrupted stretch of polls of the same set. */
  lemma {:induction false} WaitHasStart(events: seq<Event>, n: nat, window: real) returns (i: nat)
    requires n <= |events| && window > 0.0 && After(events, n, window).sought != {}
    ensures i < n && events[i].Poll? && events[i].now == After(events, n, window).since
    ensures OneWait(events, i, n, After(events, n, window).sought, window)
  {
    var l, e := After(events, n - 1, window), events[n - 1];
    if e.Quiet? {
      i := WaitHasStart(events, n - 1, window);
    } else if e.missing == l.sought && !Stale(Stamp(l.g, e.missing), e.now, window) {
      i := WaitHasStart(events, n - 1, window);
    } else {
      i := n - 1;
    }
  }

  lemma {:induction false} RunIsFair(events: seq<Event>, n: nat, window: real)
    requires n <= |events| && window > 0.0 && NeverInherits(events, n, window)
    ensures After(events, n, window).Consistent() && After(events, n, window).Fair(window)
  {
    if n > 0 {
      RunIsFair(events, n - 1, window);
      assert CleanAt(events, n - 1, window);
      EventIsFair(After(events, n - 1, window), events[n - 1], window);
    }
  }

  /** Over a whole run in which no deadline is inherited: whenever a missing set is condemned
      although a spawner exists, it had been waited for, without interruption and unchanged,
      for a full window. */
  lemma CondemnedAfterFullWindow(events: seq<Event>, n: nat, window: real) returns (i: nat)
    requires n < |events| && window > 0.0 && NeverInherits(events, n + 1, window)
    requires events[n].Poll? && events[n].spawners && !After(events, n, window).Waits(events[n], window)
    ensures i < n && OneWait(events, i, n, events[n].missing, window)
    ensures events[i].Poll? && events[n].now - events[i].now >= window
  {
    RunIsFair(events, n, window);
    assert CleanAt(events, n, window);
    PollIsFair(After(events, n, window), events[n], window);
    i := WaitHasStart(events, n, window);
  }

  // ---- when nothing is inherited ----

  /** No poll finds a deadline more than a window in the past. */
  ghost predicate NeverStale(events: seq<Event>, n: nat, window: real)
    requires n <= |events|
  {
    forall k :: 0 <= k < n ==> FreshAt(events, k, window)
  }

  ghost predicate FreshAt(events: seq<Event>, k: nat, window: real)
    requires k < |events|
  {
    events[k].Poll? ==>
      events[k].missing != {} && !Stale(Stamp(After(events, k, window).g, events[k].missing), events[k].now, window)
  }

  /** Only a stale episode separates a deadline from the set it belongs to. */
  lemma {:induction false} FreshNeverInherits(events: seq<Event>, n: nat, window: real)
    requires n <= |events| && NeverStale(events, n, window)
    ensures NeverInherits(events, n, window)
    ensures After(events, n, window).g.deadline.Some? ==> After(events, n, window).g.missing.Some?
  {
    if n > 0 {
      FreshNeverInherits(events, n - 1, window);
      assert FreshAt(events, n - 1, window);
      assert CleanAt(events, n - 1, window);
    }
  }

  /** The last poll since the last dispatch or the start of the run. */
  function LastPoll(events: seq<Event>, n: nat): Option<real>
    requires n <= |events|
  {
    if n == 0 then None
    else match events[n - 1]
      case Poll(_, _, now) => Some(now)
      case Quiet => LastPoll(events, n - 1)
      case _ => None
  }

  /** While nothing is dispatched, the governor is asked at least once per window. */
  ghost predicate AskedOften(events: seq<Event>, window: real) {
    forall k :: 0 <= k < |events| && events[k].Poll? ==>
      events[k].missing != {} && (LastPoll(events, k).Some? ==> events[k].now - LastPoll(events, k).value <= window)
  }

  lemma {:induction false} OftenIsFresh(events: seq<Event>, n: nat, window: real)
    requires n <= |events| && window > 0.0 && AskedOften(events, window)
    ensures NeverStale(events, n, window)
    ensures var d := After(events, n, window).g.deadline;
      d.Some? ==> LastPoll(events, n).Some? && LastPoll(events, n).value < d.value
  {
    if n > 0 {
      OftenIsFresh(events, n - 1, window);
      assert FreshAt(events, n - 1, window);
    }
  }

  /** A governor that is asked at least once per window never condemns a missing set, a spawner
      given, before it has waited for that very set a whole window without a break. */
  lemma AskedOftenIsFair(events: seq<Event>, n: nat, window: real) returns (i: nat)
    requires n < |events| && window > 0.0 && AskedOften(events, window)
    requires events[n].Poll? && events[n].spawners && !After(events, n, window).Waits(events[n], window)
    ensures i < n && OneWait(events, i, n, events[n].missing, window)
    ensures events[i].Poll? && events[n].now - events[i].now >= window
  {
    OftenIsFresh(events, n + 1, window);
    FreshNeverInherits(events, n + 1, window);
    i := CondemnedAfterFullWindow(events, n, window);
  }

  /** The promise does fail when a deadline is inherited: `y` is condemned at first sight. */
  lemma InheritedDeadlineCondemnsAtOnce(x: Uid, y: Uid, window: real)
    requires x != y && window > 0.0
    ensures var events := [Poll({x}, true, 0.0), Poll({x}, true, 3.0 * window), Poll({y}, true, 4.0 * window)];
      && After(events, 0, window).Waits(events[0], window)
      && After(events, 1, window).Waits(events[1], window)
      && !After(events, 2, window).Waits(events[2], window)
      && After(events, 2, window).Inherits(events[2], window)
  {
    var events := [Poll({x}, true, 0.0), Poll({x}, true, 3.0 * window), Poll({y}, true, 4.0 * window)];
    assert x in {x} && x !in {y};
    assert After(events, 1, window) == Ledger(Grace(Some(window), Some({x})), {x}, 0.0);
    assert After(events, 2, window) == Ledger(Grace(Some(4.0 * window), None), {x}, 3.0 * window);
  }

  /** A poll for a set with a spawner given is answered with waiting, unless the deadline of this very
      set has come and is not more than a window ago. */
  lemma WaitsUnlessDue(g: Grace, missing: set<Uid>, ready: bool, now: real, window: real)
    requires missing != {} && window > 0.0
    ensures Check(g, missing, Some(true), ready, now, window).1 <==>
      !(&& g.deadline.Some? && g.deadline.value <= now <= g.deadline.value + window
        && (g.missing.Some? ==> g.missing.value == missing))
    ensures Check(g, missing, None, true, now, window) == Check(g, missing, Some(true), ready, now, window)
    ensures !Check(g, missing, Some(false), ready, now, window).1 && !Check(g, missing, None, false, now, window).1
    ensures Check(g, missing, Some(false), ready, now, window).0 == OVER
  {
  }

  /** A dispatch ends a live episode, and only a live one. */
  lemma ProgressEnds(g: Grace)
    ensures Progressed(g).deadline == None && (g.deadline.Some? ==> Progressed(g).missing == None)
    ensures g.deadline.None? ==> Progressed(g).missing == g.missing
  {
  }

  /** A first wait is given a whole window; while it lasts, its deadline stands. */
  lemma DeadlineStands(g: Grace, missing: set<Uid>, ready: bool, now: real, window: real)
    requires missing != {} && window > 0.0 && Check(g, missing, Some(true), ready, now, window).1
    ensures var after := Check(g, missing, Some(true), ready, now, window).0;
      var stands := g.deadline.Some? && now < g.deadline.value && (g.missing.Some? ==> g.missing.value == missing);
      after.deadline == if stands then g.deadline else Some(now + window)
  {
  }
}
