/** The persistence contract both backends implement: the abstract tables and, for every
    operation, the new tables and the reply. */
module Disk {
  import opened Jobs
  import opened State

  datatype Outcome = Running | Succeeded | Failed | Requeued | Skipped

  datatype Attempt = Attempt(uid: Uid, executionId: string, outcome: Outcome, finishedAt: Option<string>,
                             error: Option<string>)

  datatype Reply = Done | Flag(ok: bool) | Count(n: nat) | Uids(uids: seq<Uid>) | Id(id: nat) | Raised

  /** Keep the first row of every uid that is not in `seen`. */
  function KeepFirst(rows: seq<Row>, seen: set<Uid>): seq<Row> {
    if rows == [] then []
    else if rows[0].uid in seen then KeepFirst(rows[1..], seen)
    else [rows[0]] + KeepFirst(rows[1..], seen + {rows[0].uid})
  }

  lemma KeepFirstMeans(rows: seq<Row>, seen: set<Uid>)
    ensures DistinctUids(KeepFirst(rows, seen))
    ensures UidSet(KeepFirst(rows, seen)) == UidSet(rows) - seen
    ensures forall r :: r in KeepFirst(rows, seen) ==> r in rows
    ensures |KeepFirst(rows, seen)| <= |rows|
  {
    if rows != [] {
      assert rows == [rows[0]] + rows[1..];
      UidSetAppend([rows[0]], rows[1..]);
      assert UidSet([rows[0]]) == {rows[0].uid} by { assert rows[0] in [rows[0]]; }
      if rows[0].uid in seen {
        KeepFirstMeans(rows[1..], seen);
      } else {
        var rest := KeepFirst(rows[1..], seen + {rows[0].uid});
        KeepFirstMeans(rows[1..], seen + {rows[0].uid});
        UidSetAppend([rows[0]], rest);
        forall k | 0 <= k < |rest| ensures rest[k].uid != rows[0].uid {
          assert rest[k].uid in UidSet(rest);
        }
      }
    }
  }

  lemma KeepFirstAppend(a: seq<Row>, b: seq<Row>, seen: set<Uid>)
    ensures KeepFirst(a + b, seen) == KeepFirst(a, seen) + KeepFirst(b, seen + UidSet(a))
  {
    if a == [] {
      assert a + b == b && seen + UidSet(a) == seen;
    } else {
      assert (a + b)[1..] == a[1..] + b;
      assert UidSet(a) == {a[0].uid} + UidSet(a[1..]) by {
        assert a == [a[0]] + a[1..];
        UidSetAppend([a[0]], a[1..]);
        assert UidSet([a[0]]) == {a[0].uid} by { assert a[0] in [a[0]]; }
      }
      if a[0].uid in seen {
        KeepFirstAppend(a[1..], b, seen);
        assert seen + UidSet(a) == seen + UidSet(a[1..]);
      } else {
        KeepFirstAppend(a[1..], b, seen + {a[0].uid});
        assert seen + UidSet(a) == seen + {a[0].uid} + UidSet(a[1..]);
      }
    }
  }

  /** Rows that are already distinct and new are kept as they are, and only those. */
  lemma KeepFirstFixed(rows: seq<Row>, seen: set<Uid>)
    ensures KeepFirst(rows, seen) == rows <==> DistinctUids(rows) && UidSet(rows) !! seen
    ensures KeepFirst(rows, seen) == rows <==> |KeepFirst(rows, seen)| == |rows|
  {
    KeepFirstMeans(rows, seen);
    if rows != [] {
      assert rows == [rows[0]] + rows[1..];
      UidSetAppend([rows[0]], rows[1..]);
      assert UidSet([rows[0]]) == {rows[0].uid} by { assert rows[0] in [rows[0]]; }
      if rows[0].uid in seen {
        KeepFirstMeans(rows[1..], seen);
      } else {
        KeepFirstFixed(rows[1..], seen + {rows[0].uid});
        if DistinctUids(rows) && UidSet(rows) !! seen {
          forall u | u in UidSet(rows[1..]) ensures u != rows[0].uid {
            var k :| 0 <= k < |rows[1..]| && rows[1..][k].uid == u;
            assert rows[k + 1].uid != rows[0].uid;
          }
          forall i, j | 0 <= i < j < |rows[1..]| ensures rows[1..][i].uid != rows[1..][j].uid {
            assert rows[i + 1].uid != rows[j + 1].uid;
          }
        }
      }
    }
  }

  /** The row at `i` is the first of its uid, which is not in `seen`. */
  ghost predicate FirstOfUid(rows: seq<Row>, seen: set<Uid>, i: int) {
    0 <= i < |rows| && rows[i].uid !in seen && forall j :: 0 <= j < i ==> rows[j].uid != rows[i].uid
  }

  lemma UidOfSome(rows: seq<Row>, u: Uid)
    ensures u in UidSet(rows) <==> exists j :: 0 <= j < |rows| && rows[j].uid == u
  {
    if u in UidSet(rows) {
      var r :| r in rows && r.uid == u;
    }
  }

  lemma {:induction false} KeepFirstReadsOff(rows: seq<Row>, seen: set<Uid>) returns (positions: seq<nat>)
    ensures ReadOff(rows, positions, KeepFirst(rows, seen))
    ensures forall i :: i in positions <==> FirstOfUid(rows, seen, i)
  {
    if rows == [] {
      positions := [];
    } else {
      var front, row := rows[..|rows| - 1], rows[|rows| - 1];
      assert rows == front + [row];
      positions := KeepFirstReadsOff(front, seen);
      KeepFirstAppend(front, [row], seen);
      ReadOffMore(front, row, positions, KeepFirst(front, seen));
      UidOfSome(front, row.uid);
      assert forall i :: 0 <= i < |front| ==> (FirstOfUid(rows, seen, i) <==> FirstOfUid(front, seen, i));
      if row.uid !in seen + UidSet(front) {
        positions := positions + [|front|];
      }
    }
  }

  function Names(rows: seq<Row>): seq<Uid> {
    seq(|rows|, i requires 0 <= i < |rows| => rows[i].uid)
  }

  /** Fold a batch of failure rows into the failed table; the last row of a uid wins. */
  function FailAll(failed: map<Uid, Meta>, batch: seq<(Uid, Meta)>): map<Uid, Meta> {
    if batch == [] then failed
    else FailAll(failed, batch[..|batch| - 1])[batch[|batch| - 1].0 := batch[|batch| - 1].1]
  }

  function BatchUids(batch: seq<(Uid, Meta)>): set<Uid> {
    set e | e in batch :: e.0
  }

  lemma FailAllKeys(failed: map<Uid, Meta>, batch: seq<(Uid, Meta)>)
    ensures FailAll(failed, batch).Keys == failed.Keys + BatchUids(batch)
  {
    if batch != [] {
      FailAllKeys(failed, batch[..|batch| - 1]);
      assert batch == batch[..|batch| - 1] + [batch[|batch| - 1]];
    }
  }

  /** Mark a batch as succeeded with empty metadata. */
  function SeedAll(successes: map<Uid, Meta>, uids: seq<Uid>, empty: Meta): map<Uid, Meta> {
    map u | u in successes.Keys + SetOf(uids) :: if u in uids then empty else successes[u]
  }

  datatype SuccessCommit = SuccessCommit(
    uid: Uid, meta: Meta, attempt: Option<nat>, execution: Option<string>, finishedAt: string,
    spawned: seq<Row>, cursors: map<string, Option<string>>)

  datatype Disk = Disk(
    queue: seq<Row>, successes: map<Uid, Meta>, failed: map<Uid, Meta>, payloads: map<Uid, Payload>,
    cursors: map<string, string>, attempts: map<nat, Attempt>, nextAttempt: nat)
  {
    /** Queue uids are a primary key, payload snapshots belong to failed rows, ids are fresh. */
    ghost predicate WellFormed() {
      && DistinctUids(queue) && payloads.Keys <= failed.Keys && nextAttempt >= 1
      && (forall a :: a in attempts ==> a < nextAttempt)
    }

    /** The attempt row a success must finalise: present, of this job and execution, running. */
    predicate MayFinish(c: SuccessCommit) {
      && c.attempt.Some? && c.execution != Some("") && c.finishedAt != ""
      && c.attempt.value in attempts
      && attempts[c.attempt.value].uid == c.uid
      && (c.execution.Some? ==> attempts[c.attempt.value].executionId == c.execution.value)
      && attempts[c.attempt.value].outcome == Running
    }

    /** A spawned row collides with the rest of the queue or within its own batch. */
    predicate Collides(c: SuccessCommit) {
      KeepFirst(c.spawned, UidSet(Without(queue, {c.uid}))) != c.spawned
    }

    function CommitSuccess(c: SuccessCommit): (Disk, Reply) {
      if !MayFinish(c) || Collides(c) then (this, Flag(false))
      else
        (this.(queue := c.spawned + Without(queue, {c.uid}),
               successes := successes[c.uid := c.meta],
               failed := failed - {c.uid}, payloads := payloads - {c.uid},
               cursors := MergeCursors(cursors, c.cursors),
               attempts := attempts[c.attempt.value := attempts[c.attempt.value].(
                 outcome := Succeeded, finishedAt := Some(c.finishedAt), error := None)]),
         Flag(true))
    }

    function CommitFailure(u: Uid, m: Meta, payload: Option<Payload>): Disk {
      this.(queue := Without(queue, {u}), failed := failed[u := m], successes := successes - {u},
            payloads := if payload.Some? then payloads[u := payload.value] else payloads)
    }

    function CommitFailures(batch: seq<(Uid, Meta)>): Disk {
      this.(queue := Without(queue, BatchUids(batch)), failed := FailAll(failed, batch),
            successes := successes - BatchUids(batch))
    }

    function CommitRetry(u: Uid, row: Row, front: bool): (Disk, Reply) {
      var rest := Without(queue, {u});
      if row.uid in UidSet(rest) then (this, Flag(false))
      else (this.(queue := if front then [row] + rest else rest + [row]), Flag(true))
    }

    function CommitSkip(u: Uid): Disk { this.(queue := Without(queue, {u})) }

    function AppendFailed(u: Uid, m: Meta): Disk { this.(failed := failed[u := m]) }

    function Enqueue(rows: seq<Row>, front: bool): (Disk, Reply) {
      var added := KeepFirst(rows, UidSet(queue));
      (this.(queue := if front then added + queue else queue + added), Uids(Names(added)))
    }

    function SaveQueue(rows: seq<Row>): Disk { this.(queue := KeepFirst(rows, {})) }

    function DeleteQueue(uids: seq<Uid>): (Disk, Reply) {
      var kept := Without(queue, SetOf(uids));
      WithoutShrinks(queue, SetOf(uids));
      (this.(queue := kept), Count(|queue| - |kept|))
    }

    function DeleteFailed(uids: seq<Uid>): (Disk, Reply) {
      (this.(failed := failed - SetOf(uids), payloads := payloads - SetOf(uids)), Count(|failed.Keys * SetOf(uids)|))
    }

    function DeleteSuccesses(uids: seq<Uid>): (Disk, Reply) {
      (this.(successes := successes - SetOf(uids)), Count(|successes.Keys * SetOf(uids)|))
    }

    function SeedSuccesses(uids: seq<Uid>, empty: Meta): (Disk, Reply) {
      if exists u :: u in uids && u in failed then (this, Raised)
      else (this.(successes := SeedAll(successes, uids, empty)), Count(|uids|))
    }

    function SeedCursor(k: string, v: string): (Disk, Reply) {
      if k == "" then (this, Raised) else (this.(cursors := cursors[k := v]), Done)
    }

    function AppendAttempt(a: Attempt): (Disk, Reply) {
      if a.outcome != Running || a.finishedAt.Some? || a.error.Some? then (this, Raised)
      else (this.(attempts := attempts[nextAttempt := a], nextAttempt := nextAttempt + 1), Id(nextAttempt))
    }

    function UpdateAttempt(id: nat, outcome: Outcome, at: string, error: Option<string>): (Disk, Reply) {
      if outcome == Running || at == "" || error == Some("") then (this, Raised)
      else if id !in attempts then (this, Flag(false))
      else if attempts[id].outcome != Running then (this, Raised)
      else
        var row := attempts[id].(outcome := outcome, finishedAt := Some(at), error := error);
        (this.(attempts := attempts[id := row]), Flag(true))
    }
  }

  /** One call on a backend. */
  datatype Op =
    | OpSuccess(c: SuccessCommit)
    | OpFailure(uid: Uid, meta: Meta, payload: Option<Payload>)
    | OpFailures(batch: seq<(Uid, Meta)>)
    | OpRetry(uid: Uid, row: Row, front: bool)
    | OpSkip(uid: Uid)
    | OpAppendFailed(uid: Uid, meta: Meta)
    | OpEnqueue(rows: seq<Row>, front: bool)
    | OpSave(rows: seq<Row>)
    | OpReplace(compute: seq<Row> -> seq<Row>)
    | OpDeleteQueue(uids: seq<Uid>)
    | OpDeleteFailed(uids: seq<Uid>)
    | OpDeleteSuccesses(uids: seq<Uid>)
    | OpSeedSuccesses(uids: seq<Uid>, empty: Meta)
    | OpSeedCursor(key: string, value: string)
    | OpAppendAttempt(a: Attempt)
    | OpUpdateAttempt(id: nat, outcome: Outcome, at: string, error: Option<string>)

  function Apply(d: Disk, op: Op): (Disk, Reply) {
    match op
    case OpSuccess(c) => d.CommitSuccess(c)
    case OpFailure(u, m, p) => (d.CommitFailure(u, m, p), Flag(true))
    case OpFailures(batch) => (d.CommitFailures(batch), Flag(true))
    case OpRetry(u, row, front) => d.CommitRetry(u, row, front)
    case OpSkip(u) => (d.CommitSkip(u), Flag(true))
    case OpAppendFailed(u, m) => (d.AppendFailed(u, m), Done)
    case OpEnqueue(rows, front) => d.Enqueue(rows, front)
    case OpSave(rows) => (d.SaveQueue(rows), Done)
    case OpReplace(compute) => (d.SaveQueue(compute(d.queue)), Done)
    case OpDeleteQueue(uids) => d.DeleteQueue(uids)
    case OpDeleteFailed(uids) => d.DeleteFailed(uids)
    case OpDeleteSuccesses(uids) => d.DeleteSuccesses(uids)
    case OpSeedSuccesses(uids, empty) => d.SeedSuccesses(uids, empty)
    case OpSeedCursor(k, v) => d.SeedCursor(k, v)
    case OpAppendAttempt(a) => d.AppendAttempt(a)
    case OpUpdateAttempt(id, o, at, e) => d.UpdateAttempt(id, o, at, e)
  }

  function ApplyAll(d: Disk, ops: seq<Op>): (Disk, seq<Reply>) {
    if ops == [] then (d, [])
    else
      var (d1, replies) := ApplyAll(d, ops[..|ops| - 1]);
      var (d2, reply) := Apply(d1, ops[|ops| - 1]);
      (d2, replies + [reply])
  }

  /** Successes and failed rows are disjoint, and stay so under every operation except a bare
      `append_failed` of a uid that has a success. */
  ghost predicate Disjoint(d: Disk) { d.successes.Keys !! d.failed.Keys }

  predicate KeepsDisjoint(d: Disk, op: Op) {
    op.OpAppendFailed? ==> op.uid !in d.successes
  }

  lemma ApplyKeepsWellFormed(d: Disk, op: Op)
    requires d.WellFormed()
    ensures Apply(d, op).0.WellFormed()
  {
    match op {
      case OpSuccess(c) => SuccessKeepsWellFormed(d, c);
      case OpFailure(u, m, p) => WithoutDistinct(d.queue, {u});
      case OpFailures(batch) => BatchKeepsWellFormed(d, batch);
      case OpRetry(u, row, front) => RetryKeepsDistinct(d, u, row, front);
      case OpSkip(u) => WithoutDistinct(d.queue, {u});
      case OpEnqueue(rows, front) => EnqueueKeepsDistinct(d, rows, front);
      case OpSave(rows) => KeepFirstMeans(rows, {});
      case OpReplace(compute) => KeepFirstMeans(compute(d.queue), {});
      case OpDeleteQueue(uids) => WithoutDistinct(d.queue, SetOf(uids));
      case _ => RecordKeepsWellFormed(d, op);
    }
  }

  lemma RecordKeepsWellFormed(d: Disk, op: Op)
    requires d.WellFormed()
    requires op.OpAppendFailed? || op.OpDeleteFailed? || op.OpDeleteSuccesses? || op.OpSeedSuccesses? ||
      op.OpSeedCursor? || op.OpAppendAttempt? || op.OpUpdateAttempt?
    ensures Apply(d, op).0.WellFormed()
  {
  }

  lemma SuccessKeepsWellFormed(d: Disk, c: SuccessCommit)
    requires d.WellFormed()
    ensures d.CommitSuccess(c).0.WellFormed()
  {
    SuccessKeepsDistinct(d, c);
  }

  lemma BatchKeepsWellFormed(d: Disk, batch: seq<(Uid, Meta)>)
    requires d.WellFormed()
    ensures d.CommitFailures(batch).WellFormed()
  {
    WithoutDistinct(d.queue, BatchUids(batch));
    FailAllKeys(d.failed, batch);
  }

  lemma EnqueueKeepsDistinct(d: Disk, rows: seq<Row>, front: bool)
    requires DistinctUids(d.queue)
    ensures DistinctUids(d.Enqueue(rows, front).0.queue)
  {
    KeepFirstMeans(rows, UidSet(d.queue));
    DistinctJoin(KeepFirst(rows, UidSet(d.queue)), d.queue);
  }

  lemma RetryKeepsDistinct(d: Disk, u: Uid, row: Row, front: bool)
    requires DistinctUids(d.queue)
    ensures DistinctUids(d.CommitRetry(u, row, front).0.queue)
  {
    WithoutDistinct(d.queue, {u});
    var rest := Without(d.queue, {u});
    forall k | 0 <= k < |rest| && row.uid !in UidSet(rest) ensures rest[k].uid != row.uid {
      assert rest[k] in rest;
    }
  }

  lemma SuccessKeepsDistinct(d: Disk, c: SuccessCommit)
    requires DistinctUids(d.queue)
    ensures DistinctUids(d.CommitSuccess(c).0.queue)
  {
    var rest := Without(d.queue, {c.uid});
    WithoutDistinct(d.queue, {c.uid});
    KeepFirstFixed(c.spawned, UidSet(rest));
    if !d.Collides(c) {
      DistinctJoin(c.spawned, rest);
    }
  }

  lemma DistinctJoin(a: seq<Row>, b: seq<Row>)
    requires DistinctUids(a) && DistinctUids(b) && UidSet(a) !! UidSet(b)
    ensures DistinctUids(a + b) && DistinctUids(b + a)
  {
    forall i, j | 0 <= i < |a| && 0 <= j < |b| ensures a[i].uid != b[j].uid {
      assert a[i].uid in UidSet(a) && b[j].uid in UidSet(b);
    }
  }

  lemma ApplyKeepsDisjoint(d: Disk, op: Op)
    requires Disjoint(d)
    ensures Disjoint(Apply(d, op).0) <==> KeepsDisjoint(d, op)
  {
    if op.OpFailures? {
      FailAllKeys(d.failed, op.batch);
    }
    if op.OpAppendFailed? && op.uid in d.successes {
      assert op.uid in Apply(d, op).0.failed;
    }
  }

  /** A refused or raising call changes nothing. */
  lemma RefusalChangesNothing(d: Disk, op: Op)
    ensures Apply(d, op).1 in {Flag(false), Raised} ==> Apply(d, op).0 == d
  {
  }

  /** Over a whole run of calls from a good state: the state stays good, with one reply each. */
  lemma {:induction false} RunKeepsWellFormed(d: Disk, ops: seq<Op>)
    requires d.WellFormed()
    ensures ApplyAll(d, ops).0.WellFormed() && |ApplyAll(d, ops).1| == |ops|
  {
    if ops != [] {
      RunKeepsWellFormed(d, ops[..|ops| - 1]);
      ApplyKeepsWellFormed(ApplyAll(d, ops[..|ops| - 1]).0, ops[|ops| - 1]);
    }
  }
}
