/** Deleting rows by key, one at a time, with the count a database reports. */
module Tables {
  import opened Jobs

  /** Delete the given keys one by one, counting those that were present. */
  method DropKeys(m: map<Uid, Meta>, gone: set<Uid>) returns (kept: map<Uid, Meta>, count: nat)
    ensures kept == m - gone && count == |m.Keys * gone|
  {
    var present: set<Uid> := {};
    count := 0;
    var todo := gone;
    while todo != {}
      invariant todo <= gone && count == |present| && present !! todo
      invariant forall u :: u in present <==> u in m && u in gone && u !in todo
    {
      var u :| u in todo;
      todo := todo - {u};
      if u in m {
        present := present + {u};
        count := count + 1;
      }
    }
    assert present == m.Keys * gone;
    kept := m - present;
  }
}

/** The in-memory backend: lists and dictionaries, validated before anything is written.
    `fault` stands for a copy that raises part-way through a call. */
module MemoryBackend {
  import opened Jobs
  import opened State
  import opened Disk
  import Contract
  import opened Tables

  class InMemoryStateBackend {
    var successes: map<Uid, Meta>
    var failed: map<Uid, Meta>
    var failurePayloads: map<Uid, Payload>
    var cursors: map<string, string>
    var queue: seq<Row>
    var attempts: map<nat, Attempt>
    var attemptSeq: nat

    ghost function View(): Disk
      reads this
    {
      Disk(queue, successes, failed, failurePayloads, cursors, attempts, attemptSeq)
    }

    constructor ()
      ensures View() == Disk([], map[], map[], map[], map[], map[], 1)
    {
      successes, failed, failurePayloads, cursors := map[], map[], map[], map[];
      queue, attempts, attemptSeq := [], map[], 1;
    }

    method DedupCopy(rows: seq<Row>) returns (clean: seq<Row>)
      ensures clean == KeepFirst(rows, {})
    {
      var seen: set<Uid> := {};
      clean := [];
      for i := 0 to |rows|
        invariant clean == KeepFirst(rows[..i], {}) && seen == UidSet(rows[..i])
      {
        assert rows[..i + 1] == rows[..i] + [rows[i]];
        KeepFirstAppend(rows[..i], [rows[i]], {});
        UidSetAppend(rows[..i], [rows[i]]);
        assert UidSet([rows[i]]) == {rows[i].uid} by { assert rows[i] in [rows[i]]; }
        if rows[i].uid !in seen {
          seen := seen + {rows[i].uid};
          clean := clean + [rows[i]];
        }
      }
      assert rows[..|rows|] == rows;
    }

    method SaveQueue(rows: seq<Row>, fault: bool) returns (r: Reply)
      modifies this
      ensures fault ==> View() == old(View()) && r == Raised
      ensures !fault ==> View() == old(View()).SaveQueue(rows) && r == Done
    {
      if fault { return Raised; }
      queue := DedupCopy(rows);
      r := Done;
    }

    method ReplaceQueueAtomic(compute: seq<Row> -> seq<Row>, fault: bool) returns (r: Reply)
      modifies this
      ensures fault ==> View() == old(View()) && r == Raised
      ensures !fault ==> View() == old(View()).SaveQueue(compute(old(queue))) && r == Done
    {
      if fault { return Raised; }
      queue := DedupCopy(compute(queue));
      r := Done;
    }

    method CommitJobSuccess(c: SuccessCommit, fault: bool) returns (r: Reply)
      modifies this
      ensures fault ==> View() == old(View()) && r == Flag(false)
      ensures !fault ==> (View(), r) == old(View()).CommitSuccess(c)
    {
      if fault || c.attempt.None? || c.execution == Some("") || c.finishedAt == "" || c.attempt.value !in attempts {
        return Flag(false);
      }
      var current := attempts[c.attempt.value];
      if current.uid != c.uid || (c.execution.Some? && current.executionId != c.execution.value) ||
        current.outcome != Running {
        return Flag(false);
      }
      var remaining := Without(queue, {c.uid});
      var collides := SpawnCollides(c.spawned, UidSet(remaining));
      if collides {
        return Flag(false);
      }
      var done := current.(outcome := Succeeded, finishedAt := Some(c.finishedAt), error := None);
      attempts := attempts[c.attempt.value := done];
      successes := successes[c.uid := c.meta];
      queue := c.spawned + remaining;
      failed := failed - {c.uid};
      failurePayloads := failurePayloads - {c.uid};
      cursors := MergeCursors(cursors, c.cursors);
      r := Flag(true);
    }

    method CommitJobFailure(u: Uid, m: Meta, payload: Option<Payload>, fault: bool) returns (r: Reply)
      modifies this
      ensures fault ==> View() == old(View()) && r == Flag(false)
      ensures !fault ==> View() == old(View()).CommitFailure(u, m, payload) && r == Flag(true)
    {
      if fault { return Flag(false); }
      var remaining := Without(queue, {u});
      failed := failed[u := m];
      if payload.Some? {
        failurePayloads := failurePayloads[u := payload.value];
      }
      queue := remaining;
      successes := successes - {u};
      r := Flag(true);
    }

    method CommitRetry(popped: Uid, row: Row, front: bool, fault: bool) returns (r: Reply)
      modifies this
      ensures fault ==> View() == old(View()) && r == Flag(false)
      ensures !fault ==> (View(), r) == old(View()).CommitRetry(popped, row, front)
      ensures !fault ==> Contract.Retries(old(View()), popped, row, front, View(), r)
    {
      Contract.RetryDoes(View(), popped, row, front);
      if fault { return Flag(false); }
      var remaining := Without(queue, {popped});
      WithoutUids(queue, {popped});
      if row.uid != popped && row.uid in UidSet(remaining) {
        return Flag(false);
      }
      queue := if front then [row] + remaining else remaining + [row];
      r := Flag(true);
    }

    method CommitJobFailures(batch: seq<(Uid, Meta)>, fault: bool) returns (r: Reply)
      modifies this
      ensures fault ==> View() == old(View()) && r == Flag(false)
      ensures !fault ==> View() == old(View()).CommitFailures(batch) && r == Flag(true)
    {
      if fault { return Flag(false); }
      var remaining := Without(queue, BatchUids(batch));
      for i := 0 to |batch|
        invariant failed == FailAll(old(failed), batch[..i])
        invariant successes == old(successes) - BatchUids(batch[..i])
        invariant View() == old(View()).(failed := failed, successes := successes)
      {
        assert batch[..i + 1][..i] == batch[..i];
        assert batch[..i + 1] == batch[..i] + [batch[i]];
        assert BatchUids(batch[..i + 1]) == BatchUids(batch[..i]) + {batch[i].0};
        failed := failed[batch[i].0 := batch[i].1];
        successes := successes - {batch[i].0};
      }
      assert batch[..|batch|] == batch;
      queue := remaining;
      r := Flag(true);
    }

    /** No failure path: the only commit that cannot return false. */
    method CommitSkip(u: Uid) returns (r: Reply)
      modifies this
      ensures View() == old(View()).CommitSkip(u) && r == Flag(true)
    {
      queue := Without(queue, {u});
      r := Flag(true);
    }

    method AppendFailed(u: Uid, m: Meta, fault: bool) returns (r: Reply)
      modifies this
      ensures fault ==> View() == old(View()) && r == Raised
      ensures !fault ==> View() == old(View()).AppendFailed(u, m) && r == Done
    {
      if fault { return Raised; }
      failed := failed[u := m];
      r := Done;
    }

    method EnqueueJobs(rows: seq<Row>, front: bool, fault: bool) returns (r: Reply)
      modifies this
      ensures fault ==> View() == old(View()) && (r == Raised || (r == Uids([]) && rows == []))
      ensures !fault ==> (View(), r) == old(View()).Enqueue(rows, front)
    {
      if rows == [] {
        assert queue + rows == queue == rows + queue && Names(rows) == [];
        return Uids([]);
      }
      if fault { return Raised; }
      var existing := UidSet(queue);
      var added := FirstNew(rows, existing);
      if added == [] {
        assert queue + added == queue == added + queue && Names(added) == [];
        return Uids([]);
      }
      queue := if front then added + queue else queue + added;
      r := Uids(Names(added));
    }

    method DeleteQueueUids(uids: seq<Uid>) returns (r: Reply)
      modifies this
      ensures (View(), r) == old(View()).DeleteQueue(uids)
    {
      WithoutShrinks(queue, SetOf(uids));
      if uids == [] {
        return Count(0);
      }
      var kept := Without(queue, SetOf(uids));
      r := Count(|queue| - |kept|);
      queue := kept;
    }

    method DeleteFailed(uids: seq<Uid>) returns (r: Reply)
      requires View().WellFormed()
      modifies this
      ensures (View(), r) == old(View()).DeleteFailed(uids)
    {
      var kept, count := DropKeys(failed, SetOf(uids));
      var dropped := failed.Keys - kept.Keys;
      PayloadsFollow(failed, failurePayloads, SetOf(uids));
      failurePayloads := failurePayloads - dropped;
      failed := kept;
      r := Count(count);
    }

    method DeleteSuccesses(uids: seq<Uid>) returns (r: Reply)
      modifies this
      ensures (View(), r) == old(View()).DeleteSuccesses(uids)
    {
      var kept, count := DropKeys(successes, SetOf(uids));
      successes := kept;
      r := Count(count);
    }

    method SeedSuccesses(uids: seq<Uid>, empty: Meta) returns (r: Reply)
      modifies this
      ensures (View(), r) == old(View()).SeedSuccesses(uids, empty)
    {
      if exists u :: u in uids && u in failed {
        return Raised;
      }
      for i := 0 to |uids|
        invariant View() == old(View()).(successes := successes)
        invariant successes == SeedAll(old(successes), uids[..i], empty)
      {
        assert uids[..i + 1] == uids[..i] + [uids[i]];
        successes := successes[uids[i] := empty];
      }
      assert uids[..|uids|] == uids;
      r := Count(|uids|);
    }

    method SeedCursor(k: string, v: string) returns (r: Reply)
      modifies this
      ensures (View(), r) == old(View()).SeedCursor(k, v)
    {
      if k == "" { return Raised; }
      cursors := cursors[k := v];
      r := Done;
    }

    method AppendAttempt(a: Attempt) returns (r: Reply)
      modifies this
      ensures (View(), r) == old(View()).AppendAttempt(a)
    {
      if a.outcome != Running || a.finishedAt.Some? || a.error.Some? { return Raised; }
      attempts := attempts[attemptSeq := a];
      r := Id(attemptSeq);
      attemptSeq := attemptSeq + 1;
    }

    method UpdateAttempt(id: nat, outcome: Outcome, at: string, error: Option<string>) returns (r: Reply)
      modifies this
      ensures (View(), r) == old(View()).UpdateAttempt(id, outcome, at, error)
    {
      if outcome == Running || at == "" || error == Some("") { return Raised; }
      if id !in attempts { return Flag(false); }
      if attempts[id].outcome != Running { return Raised; }
      attempts := attempts[id := attempts[id].(outcome := outcome, finishedAt := Some(at), error := error)];
      r := Flag(true);
    }

    method Execute(op: Op) returns (r: Reply)
      requires View().WellFormed()
      modifies this
      ensures (View(), r) == Apply(old(View()), op) && Contract.Does(old(View()), op, View(), r)
    {
      Contract.ApplyDoes(View(), op);
      if op.OpSuccess? || op.OpFailure? || op.OpFailures? || op.OpRetry? || op.OpSkip? {
        r := ExecuteCommit(op);
      } else if op.OpEnqueue? || op.OpSave? || op.OpReplace? || op.OpDeleteQueue? {
        r := ExecuteQueue(op);
      } else if op.OpDeleteFailed? {
        r := DeleteFailed(op.uids);
      } else if op.OpDeleteSuccesses? {
        r := DeleteSuccesses(op.uids);
      } else {
        r := ExecuteRecord(op);
      }
    }

    method ExecuteCommit(op: Op) returns (r: Reply)
      requires op.OpSuccess? || op.OpFailure? || op.OpFailures? || op.OpRetry? || op.OpSkip?
      modifies this
      ensures (View(), r) == Apply(old(View()), op)
    {
      match op {
        case OpSuccess(c) => r := CommitJobSuccess(c, false);
        case OpFailure(u, m, p) => r := CommitJobFailure(u, m, p, false);
        case OpFailures(batch) => r := CommitJobFailures(batch, false);
        case OpRetry(u, row, front) => r := CommitRetry(u, row, front, false);
        case OpSkip(u) => r := CommitSkip(u);
      }
    }

    method ExecuteQueue(op: Op) returns (r: Reply)
      requires op.OpEnqueue? || op.OpSave? || op.OpReplace? || op.OpDeleteQueue?
      modifies this
      ensures (View(), r) == Apply(old(View()), op)
    {
      match op {
        case OpEnqueue(rows, front) => r := EnqueueJobs(rows, front, false);
        case OpSave(rows) => r := SaveQueue(rows, false);
        case OpReplace(compute) => r := ReplaceQueueAtomic(compute, false);
        case OpDeleteQueue(uids) => r := DeleteQueueUids(uids);
      }
    }

    method ExecuteRecord(op: Op) returns (r: Reply)
      requires op.OpAppendFailed? || op.OpSeedSuccesses? || op.OpSeedCursor? || op.OpAppendAttempt? ||
        op.OpUpdateAttempt?
      modifies this
      ensures (View(), r) == Apply(old(View()), op)
    {
      match op {
        case OpAppendFailed(u, m) => r := AppendFailed(u, m, false);
        case OpSeedSuccesses(uids, empty) => r := SeedSuccesses(uids, empty);
        case OpSeedCursor(k, v) => r := SeedCursor(k, v);
        case OpAppendAttempt(a) => r := AppendAttempt(a);
        case OpUpdateAttempt(id, o, at, e) => r := UpdateAttempt(id, o, at, e);
      }
    }
  }

  /** The rows of a batch that are new to `existing`, first occurrence only. */
  method FirstNew(rows: seq<Row>, existing: set<Uid>) returns (added: seq<Row>)
    ensures added == KeepFirst(rows, existing)
  {
    added := [];
    var batchSeen: set<Uid> := {};
    for i := 0 to |rows|
      invariant added == KeepFirst(rows[..i], existing)
      invariant existing + batchSeen == existing + UidSet(rows[..i])
    {
      assert rows[..i + 1] == rows[..i] + [rows[i]];
      KeepFirstAppend(rows[..i], [rows[i]], existing);
      UidSetAppend(rows[..i], [rows[i]]);
      assert UidSet([rows[i]]) == {rows[i].uid} by { assert rows[i] in [rows[i]]; }
      if rows[i].uid !in existing && rows[i].uid !in batchSeen {
        batchSeen := batchSeen + {rows[i].uid};
        added := added + [rows[i]];
      }
    }
    assert rows[..|rows|] == rows;
  }

  /** Dropping the payloads of the rows that were there drops all payloads named. */
  lemma PayloadsFollow(failed: map<Uid, Meta>, payloads: map<Uid, Payload>, gone: set<Uid>)
    requires payloads.Keys <= failed.Keys
    ensures payloads - (failed.Keys - (failed - gone).Keys) == payloads - gone
  {
  }

  /** A spawned uid is still queued, or listed twice. */
  method SpawnCollides(spawned: seq<Row>, remaining: set<Uid>) returns (b: bool)
    ensures b <==> KeepFirst(spawned, remaining) != spawned
  {
    var seen: set<Uid> := {};
    for i := 0 to |spawned|
      invariant seen == UidSet(spawned[..i])
      invariant KeepFirst(spawned[..i], remaining) == spawned[..i]
    {
      var u := spawned[i].uid;
      assert spawned[..i + 1] == spawned[..i] + [spawned[i]];
      KeepFirstAppend(spawned[..i], [spawned[i]], remaining);
      UidSetAppend(spawned[..i], [spawned[i]]);
      assert UidSet([spawned[i]]) == {u} by { assert spawned[i] in [spawned[i]]; }
      if u in remaining || u in seen {
        CollisionSurvives(spawned, i, remaining);
        return true;
      }
      seen := seen + {u};
    }
    assert spawned[..|spawned|] == spawned;
    return false;
  }

  lemma CollisionSurvives(rows: seq<Row>, i: nat, seen: set<Uid>)
    requires i < |rows| && rows[i].uid in seen + UidSet(rows[..i])
    ensures KeepFirst(rows, seen) != rows
  {
    KeepFirstFixed(rows, seen);
    if rows[i].uid in seen {
      assert rows[i].uid in UidSet(rows);
    } else {
      var k :| 0 <= k < i && rows[..i][k].uid == rows[i].uid;
      assert rows[k].uid == rows[i].uid;
    }
  }
}
