/** Settling finished jobs: the retry budget, the spawn filter, and the loops that end every
    in-flight job exactly once whatever goes wrong on the way. */
module Completion {
  import opened Jobs
  import opened State
  import opened Disk
  import opened Mirror
  import opened Store
  import Memory

  // ---- the retry budget ----

  predicate Exhausted(attemptNo: nat, maxRetries: nat, transient: bool) {
    !transient && attemptNo > maxRetries
  }

  /** A transient signal costs no attempt. */
  function NextAttempt(attemptNo: nat, transient: bool): nat {
    if transient then attemptNo else attemptNo + 1
  }

  function RetryRow(row: Row, transient: bool): Row {
    row.(attemptNo := NextAttempt(row.attemptNo, transient))
  }

  /** A retried row is the row with the attempt number its next attempt has. */
  lemma RetryRowMeans(row: Row, maxRetries: nat, transient: bool)
    ensures var r := RetryRow(row, transient);
      && r.uid == row.uid && r.strikes == row.strikes && r.payload == row.payload && r.Job? == row.Job?
      && (row.Job? ==> r.taskType == row.taskType && r.fields == row.fields)
      && (row.Malformed? ==> r.rawType == row.rawType && r.raw == row.raw)
      && r.attemptNo == row.attemptNo + if transient then 0 else 1
    ensures AfterRequests(row.attemptNo, maxRetries, [transient]) ==
      if !transient && row.attemptNo > maxRetries then None else Some(RetryRow(row, transient).attemptNo)
  {
    assert [transient][..0] == [];
  }

  /** The attempt number after a series of retry requests, or none once the job is archived. */
  function AfterRequests(attemptNo: nat, maxRetries: nat, transient: seq<bool>): Option<nat> {
    if transient == [] then Some(attemptNo)
    else
      var before := AfterRequests(attemptNo, maxRetries, transient[..|transient| - 1]);
      var last := transient[|transient| - 1];
      if before.None? || Exhausted(before.value, maxRetries, last) then None else Some(NextAttempt(before.value, last))
  }

  function Business(transient: seq<bool>): nat {
    if transient == [] then 0
    else Business(transient[..|transient| - 1]) + if transient[|transient| - 1] then 0 else 1
  }

  /** From the first attempt: the job is archived exactly when it has asked for more than
      `maxRetries` business retries, however many transient ones came between. */
  lemma {:induction false} BudgetIsExact(maxRetries: nat, transient: seq<bool>)
    ensures AfterRequests(1, maxRetries, transient).None? <==> Business(transient) > maxRetries
    ensures AfterRequests(1, maxRetries, transient).Some? ==>
      AfterRequests(1, maxRetries, transient).value == 1 + Business(transient)
  {
    if transient != [] {
      BudgetIsExact(maxRetries, transient[..|transient| - 1]);
    }
  }

  // ---- the spawn filter ----

  /** Keep the first spawn of each uid, and none that is queued or in flight. */
  method CollectSpawned(state: PipelineState, spawned: seq<Row>) returns (kept: seq<Row>)
    requires state.Valid()
    ensures kept == KeepFirst(spawned, state.queueUids + state.inFlight)
  {
    kept := [];
    var seen: set<Uid> := {};
    for i := 0 to |spawned|
      invariant kept == KeepFirst(spawned[..i], state.queueUids + state.inFlight)
      invariant forall u :: u in seen + state.queueUids + state.inFlight <==>
        u in state.queueUids + state.inFlight + UidSet(spawned[..i])
    {
      assert spawned[..i + 1] == spawned[..i] + [spawned[i]];
      KeepFirstAppend(spawned[..i], [spawned[i]], state.queueUids + state.inFlight);
      UidSetAppend(spawned[..i], [spawned[i]]);
      UidsOfOne(spawned[i]);
      if spawned[i].uid !in seen && spawned[i].uid !in state.queueUids && spawned[i].uid !in state.inFlight {
        seen := seen + {spawned[i].uid};
        kept := kept + [spawned[i]];
      }
    }
    assert spawned[..|spawned|] == spawned;
  }

  /** After the filter a success commit can be refused over its spawned jobs only because another
      process enqueued one of them first. */
  lemma OnlyForeignCollides(w: World, c: SuccessCommit, spawned: seq<Row>, foreign: set<Uid>)
    requires Mirrors(w, foreign, {}) && c.uid in w.mem.inFlight
    requires c.spawned == KeepFirst(spawned, w.mem.QueueUids() + w.mem.inFlight)
    ensures w.disk.Collides(c) <==> UidSet(c.spawned) * foreign != {}
  {
    var busy := w.mem.QueueUids() + w.mem.inFlight;
    var rest := Without(w.disk.queue, {c.uid});
    WithoutUids(w.disk.queue, {c.uid});
    KeepFirstMeans(spawned, busy);
    KeepFirstFixed(c.spawned, UidSet(rest));
    CollidesAt(UidSet(c.spawned), UidSet(rest), w.mem.QueueUids(), w.mem.inFlight, foreign, c.uid);
  }

  lemma CollidesAt(spawned: set<Uid>, rest: set<Uid>, queued: set<Uid>, inFlight: set<Uid>, foreign: set<Uid>, u: Uid)
    requires spawned !! queued + inFlight && rest == queued + inFlight + foreign - {u} && u in inFlight && u !in foreign
    ensures spawned !! rest <==> spawned * foreign == {}
  {
    if x :| x in spawned && x in rest {
      assert x in spawned * foreign;
    }
  }

  // ---- settling ----

  datatype Outcome =
    | Success(c: SuccessCommit)
    | Failure(meta: Meta)
    | RetryRequest(transient: bool, front: bool)
    | Broke  // an exception before anything was committed
    | ThenBroke(first: Outcome)  // an exception in what follows the commit

  /** What is committed. */
  function Committed(o: Outcome): (c: Outcome)
    ensures !c.ThenBroke?
  {
    if o.ThenBroke? then Committed(o.first) else o
  }

  predicate IsAbout(o: Outcome, u: Uid) {
    var c := Committed(o);
    c.Success? ==> c.c.uid == u
  }

  class CompletionMachine {
    const store: StateStore
    const maxRetries: Uid -> nat
    const exhaustedMeta: Meta
    var flying: map<Uid, Row>

    constructor (s: StateStore, m: Uid -> nat, e: Meta)
      ensures store == s && maxRetries == m && exhaustedMeta == e && flying == map[]
    {
      store, maxRetries, exhaustedMeta, flying := s, m, e, map[];
    }

    /** The tracker and the state agree on what is in flight; memory mirrors the disk. */
    ghost predicate Valid(foreign: set<Uid>)
      reads this, store, store.backend, store.state
    {
      && store.Valid() && Mirrors(store.Now(), foreign, {})
      && flying.Keys == store.state.inFlight && forall u :: u in flying ==> flying[u].uid == u
    }

    /** What a permanent failure amounts to: a strike if it cannot be committed, else the archive
        and its cascade. */
    ghost predicate FailedAs(w: World, row: Row, meta: Meta, f: Faults, after: World, exit: Exit)
      reads store
    {
      if f.commit then (after, exit) == CommitStrike(w, store.policy, row.uid, row, f.strike)
      else exists cascaded ::
        store.Cascaded(ArchiveFailure(w, store.policy, row.uid, meta, row), row.uid, cascaded, f, after, exit)
    }

    ghost predicate CompletedAs(w: World, row: Row, o: Outcome, f: Faults, after: World, exit: Exit)
      reads store
    {
      match Committed(o)
      case Broke => false
      case ThenBroke(_) => false
      case Success(c) => (after, exit) == Mirror.ApplySuccess(w, store.policy, c, row, f)
      case Failure(meta) => FailedAs(w, row, meta, f, after, exit)
      case RetryRequest(transient, front) =>
        if Exhausted(row.attemptNo, maxRetries(row.uid), transient) then FailedAs(w, row, exhaustedMeta, f, after, exit)
        else (after, exit) == Mirror.ApplyRetry(w, store.policy, row.uid, row, RetryRow(row, transient), front, f)
    }

    /** Commit one result; no exit when it broke before committing anything. `raised` says that an
        exception, or a crash signal, goes on to the caller. */
    method CompleteJob(row: Row, o: Outcome, f: Faults, ghost foreign: set<Uid>)
      returns (exit: Option<Exit>, raised: bool)
      requires store.Valid() && Settling(store.Now(), foreign, row.uid) && IsAbout(o, row.uid)
      modifies store.backend, store.state
      ensures store.Valid() && (exit.None? <==> Committed(o).Broke?)
      ensures raised <==> exit.None? || exit.value == CrashSignal || o.ThenBroke?
      ensures exit.None? ==> store.Now() == old(store.Now())
      ensures exit.Some? ==> CompletedAs(old(store.Now()), row, o, f, store.Now(), exit.value)
    {
      var c := Committed(o);
      if c.Broke? {
        return None, true;
      }
      var e;
      if c.Success? {
        e := store.ApplySuccess(c.c, row, f, foreign);
      } else if c.Failure? {
        e := Fail(row, c.meta, f, foreign);
      } else if Exhausted(row.attemptNo, maxRetries(row.uid), c.transient) {
        e := Fail(row, exhaustedMeta, f, foreign);
      } else {
        e := store.ApplyRetry(row.uid, row, RetryRow(row, c.transient), c.front, f, foreign);
      }
      exit, raised := Some(e), e == CrashSignal || o.ThenBroke?;
    }

    method Fail(row: Row, meta: Meta, f: Faults, ghost foreign: set<Uid>) returns (exit: Exit)
      requires store.Valid() && Settling(store.Now(), foreign, row.uid)
      modifies store.backend, store.state
      ensures store.Valid() && FailedAs(old(store.Now()), row, meta, f, store.Now(), exit)
    {
      var cascaded;
      exit, cascaded := store.ApplyFailure(row.uid, meta, row, true, f, foreign);
    }

    /** A completed job is out of flight, and memory still mirrors the disk. */
    lemma CompletedKeeps(w: World, row: Row, o: Outcome, f: Faults, after: World, exit: Exit, foreign: set<Uid>)
      requires Settling(w, foreign, row.uid) && IsAbout(o, row.uid)
      requires CompletedAs(w, row, o, f, after, exit)
      ensures Mirrors(after, foreign, {}) && after.mem.inFlight == w.mem.inFlight - {row.uid}
    {
      var c := Committed(o);
      if c.Success? {
        SuccessKeeps(w, row, c.c, f, after, exit, foreign);
      } else if c.Failure? {
        FailedKeeps(w, row, c.meta, f, after, exit, foreign);
      } else if Exhausted(row.attemptNo, maxRetries(row.uid), c.transient) {
        FailedKeeps(w, row, exhaustedMeta, f, after, exit, foreign);
      } else {
        RetryKeeps(w, row, RetryRow(row, c.transient), c.front, f, after, exit, foreign);
      }
    }

    lemma SuccessKeeps(w: World, row: Row, c: SuccessCommit, f: Faults, after: World, exit: Exit, foreign: set<Uid>)
      requires Settling(w, foreign, row.uid) && c.uid == row.uid
      requires (after, exit) == Mirror.ApplySuccess(w, store.policy, c, row, f)
      ensures Mirrors(after, foreign, {}) && after.mem.inFlight == w.mem.inFlight - {row.uid}
    {
      SuccessMirrors(w, store.policy, c, row, f, foreign);
    }

    lemma RetryKeeps(w: World, row: Row, again: Row, front: bool, f: Faults, after: World, exit: Exit,
                     foreign: set<Uid>)
      requires Settling(w, foreign, row.uid) && again.uid == row.uid
      requires (after, exit) == Mirror.ApplyRetry(w, store.policy, row.uid, row, again, front, f)
      ensures Mirrors(after, foreign, {}) && after.mem.inFlight == w.mem.inFlight - {row.uid}
    {
      RetryMirrors(w, store.policy, row.uid, row, again, front, f, foreign);
    }

    lemma FailedKeeps(w: World, row: Row, meta: Meta, f: Faults, after: World, exit: Exit, foreign: set<Uid>)
      requires Settling(w, foreign, row.uid) && FailedAs(w, row, meta, f, after, exit)
      ensures Mirrors(after, foreign, {}) && after.mem.inFlight == w.mem.inFlight - {row.uid}
    {
      if f.commit {
        StrikeMirrors(w, store.policy, row.uid, row, f.strike, foreign);
      } else {
        var archived := ArchiveFailure(w, store.policy, row.uid, meta, row);
        FailureMirrors(w, store.policy, row.uid, meta, row, foreign);
        var cascaded :| store.Cascaded(archived, row.uid, cascaded, f, after, exit);
        CascadeKeeps(store, archived, foreign, row.uid, cascaded, f, after, exit);
      }
    }

    /** Complete one in-flight job; if that left it in flight, put its row back; then forget it.
        Whatever happened, it is not in flight any more. */
    method SettleOne(u: Uid, o: Outcome, f: Faults, ghost foreign: set<Uid>) returns (settled: bool)
      requires Valid(foreign) && u in flying && IsAbout(o, u)
      modifies this`flying, store.backend, store.state
      ensures Valid(foreign) && flying == old(flying) - {u}
      ensures SettledAs(old(store.Now()), old(flying)[u], o, f, store.Now(), settled)
    {
      ghost var w := store.Now();
      var row := flying[u];
      FlyingIsSettling(w, foreign, u);
      settled := CompleteOrRequeue(row, o, f, foreign);
      ghost var after := store.Now();
      SettledKeeps(w, row, o, f, after, settled, foreign);
      flying := flying - {u};
      assert store.Now() == after;
    }

    method CompleteOrRequeue(row: Row, o: Outcome, f: Faults, ghost foreign: set<Uid>) returns (settled: bool)
      requires store.Valid() && Settling(store.Now(), foreign, row.uid) && row.uid in store.state.inFlight
      requires IsAbout(o, row.uid)
      modifies store.backend, store.state
      ensures store.Valid() && SettledAs(old(store.Now()), row, o, f, store.Now(), settled)
    {
      ghost var w := store.Now();
      var exit, raised := CompleteJob(row, o, f, foreign);
      settled := !raised;
      if exit.Some? {
        CompletedKeeps(w, row, o, f, store.Now(), exit.value, foreign);
      }
      RequeueUncommitted(row, foreign);
    }

    lemma SettledKeeps(w: World, row: Row, o: Outcome, f: Faults, after: World, settled: bool, foreign: set<Uid>)
      requires Settling(w, foreign, row.uid) && IsAbout(o, row.uid)
      requires SettledAs(w, row, o, f, after, settled)
      ensures Mirrors(after, foreign, {}) && after.mem.inFlight == w.mem.inFlight - {row.uid}
    {
      if Committed(o).Broke? {
        PutBackMirrors(w, row.uid, row, true, foreign);
      } else {
        var exit :| CompletedAs(w, row, o, f, after, exit) && settled == (exit != CrashSignal && !o.ThenBroke?);
        CompletedKeeps(w, row, o, f, after, exit, foreign);
      }
    }

    /** Completed as it should be, or put back untouched; an exception after the commit changes
        only the report. */
    ghost predicate SettledAs(w: World, row: Row, o: Outcome, f: Faults, after: World, settled: bool)
      reads store
    {
      if Committed(o).Broke? then !settled && after == World(w.disk, w.mem.Unregister(row.uid).Spawn([row], true))
      else exists exit :: CompletedAs(w, row, o, f, after, exit) && settled == (exit != CrashSignal && !o.ThenBroke?)
    }

    /** Only a job that is still in flight is put back: this step runs nothing again that memory knows
        to be committed. */
    method RequeueUncommitted(row: Row, ghost foreign: set<Uid>)
      requires store.Valid() && Mirrors(store.Now(), foreign, {})
      modifies store.state
      ensures store.Valid()
      ensures store.Now() ==
        if row.uid in old(store.state.inFlight)
        then World(old(store.Now()).disk, old(store.Now()).mem.Unregister(row.uid).Spawn([row], true))
        else old(store.Now())
    {
      if row.uid in store.state.inFlight {
        store.state.UnregisterInFlight(row.uid);
        store.state.SpawnJobs([row], true);
      }
    }

    /** Settle every reaped job, unknown ones passed over; a failure is only remembered, so it
        keeps no other job from being settled. Each is settled out of the world its predecessor left, and
        those that went well are counted. */
    method SettleReaped(reaped: seq<(Uid, Outcome, Faults)>, ghost foreign: set<Uid>)
      returns (count: nat, failed: bool, ghost path: seq<World>, ghost fine: seq<bool>)
      requires Valid(foreign)
      requires forall i :: 0 <= i < |reaped| ==> IsAbout(reaped[i].1, reaped[i].0)
      modifies this`flying, store.backend, store.state
      ensures Valid(foreign) && flying == old(flying) - ReapedUids(reaped)
      ensures failed <==> count < Known(old(flying).Keys, reaped)
      ensures count <= Known(old(flying).Keys, reaped)
      ensures InTurn(old(flying), reaped, |reaped|, path, fine)
      ensures path[0] == old(store.Now()) && path[|reaped|] == store.Now()
      ensures count == |Fine(fine)|
    {
      ghost var tracked := flying;
      count, failed, path, fine := 0, false, [store.Now()], [];
      assert tracked - ReapedUids(reaped[..0]) == tracked;
      for i := 0 to |reaped|
        invariant Valid(foreign) && path != [] && path[0] == old(store.Now())
        invariant Settled(tracked, reaped, i, path, fine, count, failed)
      {
        count, failed, path, fine := SettleTurn(tracked, reaped, i, path, fine, count, failed, foreign);
      }
      assert reaped[..|reaped|] == reaped;
    }

    method SettleTurn(ghost tracked: map<Uid, Row>, reaped: seq<(Uid, Outcome, Faults)>, i: nat,
                      ghost path0: seq<World>, ghost fine0: seq<bool>, count0: nat, failed0: bool,
                      ghost foreign: set<Uid>)
      returns (count: nat, failed: bool, ghost path: seq<World>, ghost fine: seq<bool>)
      requires Valid(foreign) && i < |reaped| && IsAbout(reaped[i].1, reaped[i].0)
      requires Settled(tracked, reaped, i, path0, fine0, count0, failed0)
      modifies this`flying, store.backend, store.state
      ensures Valid(foreign) && path0 <= path
      ensures Settled(tracked, reaped, i + 1, path, fine, count, failed)
    {
      ghost var ok, now := false, flying;
      count, failed, ok := SettleNext(reaped[i].0, reaped[i].1, reaped[i].2, count0, failed0, foreign);
      TurnCounts(tracked, reaped, i, path0, fine0, count0, failed0, now, store.Now(), ok);
      path, fine := path0 + [store.Now()], fine0 + [ok];
    }

    /** The first `n` entries are settled and counted. */
    ghost predicate Settled(tracked: map<Uid, Row>, reaped: seq<(Uid, Outcome, Faults)>, n: nat, path: seq<World>,
                            fine: seq<bool>, count: nat, failed: bool)
      reads this, store, store.backend, store.state
    {
      && InTurn(tracked, reaped, n, path, fine) && path[n] == store.Now() && count == |Fine(fine)|
      && flying == tracked - ReapedUids(reaped[..n]) && Tally(tracked.Keys, reaped[..n], count, failed)
    }

    /** The first `n` entries, each out of the world before it: a job still tracked at its turn is settled,
        any other entry passed over. */
    ghost predicate InTurn(tracked: map<Uid, Row>, reaped: seq<(Uid, Outcome, Faults)>, n: nat, path: seq<World>,
                           fine: seq<bool>)
      reads store
    {
      && |path| == n + 1 && |fine| == n <= |reaped|
      && forall i :: 0 <= i < n ==> TakesTurn(tracked, reaped, i, path[i], path[i + 1], fine[i])
    }

    ghost predicate TakesTurn(tracked: map<Uid, Row>, reaped: seq<(Uid, Outcome, Faults)>, i: nat, before: World,
                              after: World, ok: bool)
      reads store
      requires i < |reaped|
    {
      var (u, o, f) := reaped[i];
      if u in tracked && forall k :: 0 <= k < i ==> reaped[k].0 != u then SettledAs(before, tracked[u], o, f, after, ok)
      else after == before && !ok
    }

    lemma TurnCounts(tracked: map<Uid, Row>, reaped: seq<(Uid, Outcome, Faults)>, n: nat, path: seq<World>,
                     fine: seq<bool>, count: nat, failed: bool, now: map<Uid, Row>, after: World, ok: bool)
      requires n < |reaped| && InTurn(tracked, reaped, n, path, fine) && now == tracked - ReapedUids(reaped[..n])
      requires count == |Fine(fine)| && Tally(tracked.Keys, reaped[..n], count, failed)
      requires var (u, o, f) := reaped[n];
        if u in now then SettledAs(path[n], now[u], o, f, after, ok) else after == path[n] && !ok
      ensures InTurn(tracked, reaped, n + 1, path + [after], fine + [ok])
      ensures count + (if ok then 1 else 0) == |Fine(fine + [ok])|
      ensures Tally(tracked.Keys, reaped[..n + 1], count + (if ok then 1 else 0), failed || (reaped[n].0 in now && !ok))
      ensures now - {reaped[n].0} == tracked - ReapedUids(reaped[..n + 1])
    {
      ReapedOneMore(reaped, n);
      MinusTwice(tracked, ReapedUids(reaped[..n]), reaped[n].0);
      FineGrows(fine, ok);
      assert reaped[n].0 in ReapedUids(reaped[..n]) <==> exists k :: 0 <= k < n && reaped[k].0 == reaped[n].0 by {
        assert forall k :: 0 <= k < n ==> reaped[..n][k] == reaped[k];
      }
      TurnGrows(tracked, reaped, n, path, fine, after, ok);
    }

    lemma TurnGrows(tracked: map<Uid, Row>, reaped: seq<(Uid, Outcome, Faults)>, n: nat, path: seq<World>,
                    fine: seq<bool>, after: World, ok: bool)
      requires n < |reaped| && InTurn(tracked, reaped, n, path, fine)
      requires TakesTurn(tracked, reaped, n, path[n], after, ok)
      ensures InTurn(tracked, reaped, n + 1, path + [after], fine + [ok])
    {
      var more, longer := fine + [ok], path + [after];
      forall i | 0 <= i < n + 1 ensures TakesTurn(tracked, reaped, i, longer[i], longer[i + 1], more[i]) {
        if i < n {
          assert TakesTurn(tracked, reaped, i, path[i], path[i + 1], fine[i]);
        }
      }
    }

    /** Every known entry was settled and counted, or made the whole count as failed. */
    ghost predicate Tally(tracked: set<Uid>, reaped: seq<(Uid, Outcome, Faults)>, count: nat, failed: bool) {
      count <= Known(tracked, reaped) && (failed <==> count < Known(tracked, reaped))
    }

    /** Settle what an abort found: cancelled jobs go back to the head of the queue, finished ones
        are settled as usual. `broken` names the jobs whose cleanup fails; that, too, is only
        remembered. */
    method SettleAborted(cancelled: seq<Uid>, done: seq<(Uid, Outcome, Faults)>, broken: set<Uid>,
                         ghost foreign: set<Uid>)
      returns (settled: nat, failed: bool, ghost returned: seq<World>, ghost path: seq<World>, ghost fine: seq<bool>)
      requires Valid(foreign) && forall i :: 0 <= i < |done| ==> IsAbout(done[i].1, done[i].0)
      modifies this`flying, store.backend, store.state
      ensures Valid(foreign) && flying == old(flying) - SetOf(cancelled) - ReapedUids(done)
      ensures old(flying).Keys <= SetOf(cancelled) + ReapedUids(done) ==> flying == map[] && store.state.inFlight == {}
      ensures settled <= Known(old(flying).Keys - SetOf(cancelled), done)
      ensures failed <==> SetOf(cancelled) * broken != {} || settled < Known(old(flying).Keys - SetOf(cancelled), done)
      ensures BackInTurn(old(flying), cancelled, |cancelled|, returned) && returned[0] == old(store.Now())
      ensures InTurn(old(flying) - SetOf(cancelled), done, |done|, path, fine)
      ensures path[0] == returned[|cancelled|] && path[|done|] == store.Now()
      ensures settled == |Fine(fine)|
    {
      failed, returned := CancelAll(cancelled, broken, foreign);
      assert flying.Keys == old(flying).Keys - SetOf(cancelled);
      var more;
      settled, more, path, fine := SettleReaped(done, foreign);
      failed := failed || more;
      assert flying.Keys == old(flying).Keys - SetOf(cancelled) - ReapedUids(done);
    }

    /** The first `n` of them, each out of the world before it: a job still tracked at its turn is back at
        the head of memory. */
    static ghost predicate BackInTurn(tracked: map<Uid, Row>, cancelled: seq<Uid>, n: nat, path: seq<World>) {
      && |path| == n + 1 && n <= |cancelled|
      && forall i :: 0 <= i < n ==> GoesBack(tracked, cancelled, i, path[i], path[i + 1])
    }

    static ghost predicate GoesBack(tracked: map<Uid, Row>, cancelled: seq<Uid>, i: nat, before: World, after: World)
      requires i < |cancelled|
    {
      var u := cancelled[i];
      if u in tracked && u !in cancelled[..i] then Memory.BackInMemory(before, u, tracked[u], true, after)
      else after == before
    }

    method CancelAll(cancelled: seq<Uid>, broken: set<Uid>, ghost foreign: set<Uid>)
      returns (failed: bool, ghost path: seq<World>)
      requires Valid(foreign)
      modifies this`flying, store.state
      ensures Valid(foreign) && flying == old(flying) - SetOf(cancelled)
      ensures failed <==> SetOf(cancelled) * broken != {}
      ensures BackInTurn(old(flying), cancelled, |cancelled|, path)
      ensures path[0] == old(store.Now()) && path[|cancelled|] == store.Now()
    {
      failed, path := false, [store.Now()];
      ghost var tracked := flying;
      assert SetOf(cancelled[..0]) == {} && tracked - {} == tracked;
      for i := 0 to |cancelled|
        invariant Valid(foreign) && flying == tracked - SetOf(cancelled[..i])
        invariant failed <==> SetOf(cancelled[..i]) * broken != {}
        invariant BackInTurn(tracked, cancelled, i, path) && path[0] == old(store.Now()) && path[i] == store.Now()
      {
        ghost var now := flying;
        failed := failed || cancelled[i] in broken;
        Cancel(cancelled[i], foreign);
        CancelledOneMore(tracked, cancelled, broken, i);
        BackGrows(tracked, cancelled, i, path, now, store.Now());
        path := path + [store.Now()];
      }
      assert cancelled[..|cancelled|] == cancelled;
    }

    static lemma BackGrows(tracked: map<Uid, Row>, cancelled: seq<Uid>, n: nat, path: seq<World>, now: map<Uid, Row>,
                           after: World)
      requires n < |cancelled| && BackInTurn(tracked, cancelled, n, path) && now == tracked - SetOf(cancelled[..n])
      requires var u := cancelled[n];
        if u in now then Memory.BackInMemory(path[n], u, now[u], true, after) else after == path[n]
      ensures BackInTurn(tracked, cancelled, n + 1, path + [after])
    {
      var longer := path + [after];
      forall i | 0 <= i < n + 1 ensures GoesBack(tracked, cancelled, i, longer[i], longer[i + 1]) {
        if i < n {
          assert GoesBack(tracked, cancelled, i, path[i], path[i + 1]);
        }
      }
    }

    static lemma CancelledOneMore(tracked: map<Uid, Row>, cancelled: seq<Uid>, broken: set<Uid>, i: nat)
      requires i < |cancelled|
      ensures tracked - SetOf(cancelled[..i]) - {cancelled[i]} == tracked - SetOf(cancelled[..i + 1])
      ensures SetOf(cancelled[..i + 1]) * broken != {} <==>
        SetOf(cancelled[..i]) * broken != {} || cancelled[i] in broken
    {
      assert cancelled[..i + 1] == cancelled[..i] + [cancelled[i]];
      AppendOne(cancelled[..i], cancelled[i]);
      MinusTwice(tracked, SetOf(cancelled[..i]), cancelled[i]);
      var before, u := SetOf(cancelled[..i]), cancelled[i];
      assert (before + {u}) * broken == before * broken + {u} * broken;
      if u in broken {
        assert u in {u} * broken;
      }
    }

    /** A job that was cancelled before it finished. */
    method Cancel(u: Uid, ghost foreign: set<Uid>)
      requires Valid(foreign)
      modifies this`flying, store.state
      ensures Valid(foreign) && flying == old(flying) - {u}
      ensures u in old(flying) ==> Memory.BackInMemory(old(store.Now()), u, old(flying)[u], true, store.Now())
      ensures u !in old(flying) ==> store.Now() == old(store.Now())
    {
      if u in flying {
        ghost var w := store.Now();
        FlyingIsSettling(w, foreign, u);
        PutBackMirrors(w, u, flying[u], true, foreign);
        Memory.BackMeans(w, u, flying[u], true);
        RequeueUncommitted(flying[u], foreign);
        flying := flying - {u};
      }
    }

    method SettleNext(u: Uid, o: Outcome, f: Faults, count0: nat, failed0: bool, ghost foreign: set<Uid>)
      returns (count: nat, failed: bool, ghost ok: bool)
      requires Valid(foreign) && IsAbout(o, u)
      modifies this`flying, store.backend, store.state
      ensures Valid(foreign) && flying == old(flying) - {u}
      ensures u in old(flying) ==> SettledAs(old(store.Now()), old(flying)[u], o, f, store.Now(), ok)
      ensures u !in old(flying) ==> store.Now() == old(store.Now()) && !ok
      ensures count == count0 + (if ok then 1 else 0) && (failed <==> failed0 || (u in old(flying) && !ok))
    {
      count, failed, ok := count0, failed0, false;
      if u in flying {
        var settled := SettleOne(u, o, f, foreign);
        ok := settled;
        if settled {
          count := count + 1;
        } else {
          failed := true;
        }
      }
    }
  }

  function ReapedUids(reaped: seq<(Uid, Outcome, Faults)>): set<Uid> {
    set i | 0 <= i < |reaped| :: reaped[i].0
  }

  /** How many of the reaped entries name a job that is still tracked when their turn comes. */
  function Known(tracked: set<Uid>, reaped: seq<(Uid, Outcome, Faults)>): nat {
    if reaped == [] then 0
    else
      var front, last := reaped[..|reaped| - 1], reaped[|reaped| - 1];
      Known(tracked, front) + if last.0 in tracked && last.0 !in ReapedUids(front) then 1 else 0
  }

  /** The turns that went well. */
  ghost function Fine(fine: seq<bool>): set<nat> { set i: nat | i < |fine| && fine[i] }

  lemma FineGrows(fine: seq<bool>, ok: bool)
    ensures |Fine(fine + [ok])| == |Fine(fine)| + if ok then 1 else 0
  {
    assert Fine(fine + [ok]) == if ok then Fine(fine) + {|fine|} else Fine(fine);
  }

  /** As many as there are tracked jobs among those reaped. */
  lemma {:induction false} KnownCounts(tracked: set<Uid>, reaped: seq<(Uid, Outcome, Faults)>)
    ensures Known(tracked, reaped) == |tracked * ReapedUids(reaped)|
  {
    if reaped != [] {
      var n := |reaped| - 1;
      KnownCounts(tracked, reaped[..n]);
      ReapedOneMore(reaped, n);
      assert reaped[..n + 1] == reaped;
      var before := tracked * ReapedUids(reaped[..n]);
      assert tracked * ReapedUids(reaped) ==
        if reaped[n].0 in tracked then before + {reaped[n].0} else before;
    } else {
      assert tracked * ReapedUids(reaped) == {};
    }
  }

  lemma MinusTwice(m: map<Uid, Row>, gone: set<Uid>, u: Uid)
    ensures m - gone - {u} == m - (gone + {u}) && (u in m - gone <==> u in m && u !in gone)
  {
  }

  lemma ReapedOneMore(reaped: seq<(Uid, Outcome, Faults)>, i: nat)
    requires i < |reaped|
    ensures ReapedUids(reaped[..i + 1]) == ReapedUids(reaped[..i]) + {reaped[i].0}
    ensures reaped[..i + 1][..i] == reaped[..i] && reaped[..i + 1][i] == reaped[i]
  {
    var now, before := reaped[..i + 1], reaped[..i];
    assert now[i].0 == reaped[i].0;
    assert forall k :: 0 <= k < i ==> now[k] == before[k];
    forall u | u in ReapedUids(before) ensures u in ReapedUids(now) {
      var k :| 0 <= k < |before| && before[k].0 == u;
      assert now[k].0 == u;
    }
  }

  /** An in-flight job may be settled. */
  lemma FlyingIsSettling(w: World, foreign: set<Uid>, u: Uid)
    requires Mirrors(w, foreign, {}) && u in w.mem.inFlight
    ensures Settling(w, foreign, u)
  {
  }

  lemma CascadeKeeps(store: StateStore, w: World, foreign: set<Uid>, root: Uid, cascaded: seq<Uid>, f: Faults,
                     after: World, exit: Exit)
    requires Mirrors(w, foreign, {}) && store.Cascaded(w, root, cascaded, f, after, exit)
    ensures Mirrors(after, foreign, {}) && after.mem.inFlight == w.mem.inFlight
  {
    if cascaded != [] {
      CascadeBatchUids(store.policy, cascaded);
      forall u | u in cascaded ensures u in w.mem.QueueUids() {
        DownstreamIsQueued(w.mem, ExcludedNow(store.selection, w.mem.queue), root, u);
      }
      BatchMirrors(w, store.policy, store.policy.normalize, CascadeBatch(store.policy, cascaded), f, foreign);
      BatchKeepsFlights(w, store.policy, store.policy.normalize, CascadeBatch(store.policy, cascaded), f);
    }
  }
}
